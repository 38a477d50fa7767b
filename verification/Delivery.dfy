/** Publishing to the group and what the receivers make of it: one `Send` in either queue mode, and the
    selection of a status among the sealed copies of a broadcast. */
module Delivery {
  import opened GoStrings
  import opened Base64
  import opened Models
  import opened Topics
  import opened DataFilters
  import opened Envelope
  import opened Keys
  import opened DidDoc
  import opened Prober
  import opened Syncer
  import Handshake

  // ------------------------------------------------------------------------------ bytes on the wire

  /** Payloads travel as text, one character per byte. */
  function Text(data: bytes): string {
    seq(|data|, i requires 0 <= i < |data| => data[i] as char)
  }

  function Untext(text: string): bytes {
    seq(|text|, i requires 0 <= i < |text| => if text[i] as int < 256 then text[i] as int as byte else 0)
  }

  lemma TextRoundTrip(data: bytes)
    ensures Untext(Text(data)) == data
  {
  }

  // ------------------------------------------------------------------------------------------- send

  /** The sender of one group message: its connections, its clock for the topic, and the random values it draws per
      subscriber. */
  datatype Sender = Sender(c: Setup, codec: Codec, p: Prober, topic: string, clock: Option<Ts>, now: int64,
                           rnd: string -> Random)

  /** The envelope for one subscriber: packed with its key from the subscriber index and the pair kept for it. */
  function Sealed(s: Sender, sub: string, key: bytes, msg: bytes): bytes
    requires sub in s.p.keys
  {
    SealedData(s, sub, key, Sent(s.codec, s.clock, msg, s.now))
  }

  function SealedData(s: Sender, sub: string, key: bytes, data: bytes): bytes
    requires sub in s.p.keys
  {
    s.c.s.marshalMsg(Pack(s.c.s, data, key, s.p.keys[sub].pub, s.p.keys[sub].prv, s.rnd(sub)))
  }

  /** What the sender publishes for one subscriber. */
  function FrameFor(s: Sender, mode: GroupMode, sub: string, key: bytes, msg: bytes): string
    requires sub in s.p.keys
  {
    Frame(DataTopic(mode, s.topic, s.p.name, sub), Text(Sealed(s, sub, key, msg)))
  }

  function Frames(s: Sender, mode: GroupMode, subs: map<string, bytes>, order: seq<string>, msg: bytes): seq<string>
    requires forall l :: l in order ==> l in subs && l in s.p.keys
  {
    if order == [] then []
    else
      var l := order[|order| - 1];
      assert l in order;
      Frames(s, mode, subs, order[..|order| - 1], msg) + [FrameFor(s, mode, l, subs[l], msg)]
  }

  /** The loop of `Send`: one frame per subscriber, in the order the index happens to be ranged over, for the text
      `data` that the syncer made of the message.  It stops at a subscriber for which no key pair is kept or
      publishing fails; without parameters the first topic it needs makes it panic. */
  method PublishAll(s: Sender, mode: Option<GroupMode>, subs: map<string, bytes>, ghost msg: bytes, data: bytes,
                    publishes: iset<string>)
    returns (frames: seq<string>, ghost order: seq<string>, done: Call<bool>)
    requires data == Sent(s.codec, s.clock, msg, s.now)
    ensures NoDuplicates(order) && forall l :: l in order ==> l in subs && l in s.p.keys
    ensures if mode.Some? then frames == Frames(s, mode.value, subs, order, msg) else frames == []
    ensures done == Returned(true) <==> forall l :: l in subs ==> l in s.p.keys && l in publishes && mode.Some?
    ensures done == Returned(true) ==> forall l :: l in subs ==> l in order
    ensures done == Panicked ==> mode.None?
    ensures done == Returned(false) ==> exists l :: l in subs && (l !in s.p.keys || l !in publishes)
  {
    frames, order := [], [];
    var rest := subs.Keys;
    while rest != {}
      invariant rest <= subs.Keys && NoDuplicates(order)
      invariant forall l :: l in order <==> l in subs && l !in rest
      invariant forall l :: l in order ==> l in s.p.keys && l in publishes && mode.Some?
      invariant if mode.Some? then frames == Frames(s, mode.value, subs, order, msg) else frames == []
      decreases rest
    {
      var sub :| sub in rest;
      if sub !in s.p.keys {
        return frames, order, Returned(false);
      }
      if mode.None? {
        return frames, order, Panicked;
      }
      if sub !in publishes {
        return frames, order, Returned(false);
      }
      frames := frames +
        [Frame(DataTopic(mode.value, s.topic, s.p.name, sub), Text(SealedData(s, sub, subs[sub], data)))];
      ghost var before := order;
      order := order + [sub];
      assert order[..|order| - 1] == before;
      rest := rest - {sub};
    }
    done := Returned(true);
  }

  // ---------------------------------------------------------------------------------------- receive

  /** A receiver: its key store, the clocks of its ordered topics and its data filters. */
  datatype Receiver = Receiver(c: Setup, codec: Codec, keys: KeyStore, tsMap: map<string, Ts>,
                               filters: multiset<string>)

  datatype Delivered = Delivered(sender: string, topic: string, data: bytes)

  predicate Arrives(r: Receiver, frame: string) {
    exists f :: f in r.filters && Matches(f, frame)
  }

  function ClockOf(tsMap: map<string, Ts>, topic: string): Option<Ts> {
    if topic in tsMap then Some(tsMap[topic]) else None
  }

  /** The listener splits the frame, and the `data` handler reads and parses the envelope. */
  ghost function Handle(r: Receiver, frame: string): Option<Delivered> {
    var parts := SplitFirst(frame, ' ');
    if |parts| != 2 then None else
    var topic := GroupNameByDataTopic(parts[0]);
    match ReadMessage(r.c, r.keys, Untext(parts[1]))
    case Message(sender, text) =>
      var data := Parsed(r.codec, ClockOf(r.tsMap, topic), text);
      if data.None? then None else Some(Delivered(sender, topic, data.value))
    case _ => None
  }

  /** A frame without a space is dropped. */
  lemma SpacelessIsDropped(r: Receiver, frame: string)
    requires ' ' !in frame
    ensures Handle(r, frame).None?
  {
    SplitWhole(frame, ' ');
  }

  /** What the handler accepts of the frames that arrive, in order. */
  ghost function Accepted(r: Receiver, frames: seq<string>): seq<Delivered> {
    if frames == [] then []
    else
      var init, last := Accepted(r, frames[..|frames| - 1]), frames[|frames| - 1];
      if Arrives(r, last) && Handle(r, last).Some? then init + [Handle(r, last).value] else init
  }

  /** The subscription of the agent named `me` to the sender is settled: the sender indexes it with the key of
      the pair it keeps for the sender, its filter is set, both agree on whether the topic is ordered, and no
      other subscriber's key is among its own. */
  ghost predicate Settled(s: Sender, mode: GroupMode, subs: map<string, bytes>, me: string, r: Receiver) {
    r.c == s.c && r.codec == s.codec && LawfulSetup(s.c) && s.codec.RoundTrips() &&
    Plain(s.topic) && Plain(s.p.name) &&
    DistinctKeys(r.keys) && s.p.name in r.keys && ValidPair(r.c, r.keys[s.p.name]) &&
    (forall l :: l in subs ==> Plain(l) && l in s.p.keys && ValidPair(s.c, s.p.keys[l])) &&
    (me in subs ==> subs[me] == r.keys[s.p.name].pub && DataTopic(mode, s.topic, s.p.name, me) in r.filters) &&
    (forall l, x :: l in subs && l != me && x in r.keys ==> r.keys[x].pub != subs[l]) &&
    (s.clock.Some? <==> s.topic in r.tsMap)
  }

  lemma FrameIsHandled(s: Sender, mode: GroupMode, subs: map<string, bytes>, me: string, r: Receiver, sub: string,
                       msg: bytes)
    requires Settled(s, mode, subs, me, r) && sub in subs
    ensures Handle(r, FrameFor(s, mode, sub, subs[sub], msg)) ==
            if sub == me then Some(Delivered(s.p.name, s.topic, msg)) else None
  {
    var data := Sealed(s, sub, subs[sub], msg);
    FrameRoundTrip(mode, s.topic, s.p.name, sub, Text(data));
    GroupNameRecovered(mode, s.topic, s.p.name, sub);
    TextRoundTrip(data);
    var text := Sent(s.codec, s.clock, msg, s.now);
    if sub == me {
      PackedIsRead(s.c, r.keys, s.p.name, s.p.keys[sub], text, s.rnd(sub));
      SyncRoundTrip(s.codec, s.clock, ClockOf(r.tsMap, s.topic), msg, s.now);
    } else {
      ForeignIsRejected(s.c, r.keys, subs[sub], s.p.keys[sub], text, s.rnd(sub));
    }
  }

  lemma AcceptedAppend(r: Receiver, frames: seq<string>, frame: string)
    ensures Accepted(r, frames + [frame]) ==
              Accepted(r, frames) + if Arrives(r, frame) && Handle(r, frame).Some? then [Handle(r, frame).value] else []
  {
    assert (frames + [frame])[..|frames|] == frames;
  }

  lemma {:induction false} AcceptedFrames(s: Sender, mode: GroupMode, subs: map<string, bytes>, order: seq<string>,
                                          me: string, r: Receiver, msg: bytes)
    requires Settled(s, mode, subs, me, r) && NoDuplicates(order) && forall l :: l in order ==> l in subs
    ensures Accepted(r, Frames(s, mode, subs, order, msg)) ==
            if me in order then [Delivered(s.p.name, s.topic, msg)] else []
  {
    if order != [] {
      var init, l := order[..|order| - 1], order[|order| - 1];
      assert order == init + [l];
      assert l in order;
      AcceptedFrames(s, mode, subs, init, me, r, msg);
      FrameIsAccepted(s, mode, subs, me, r, l, msg);
      AcceptedAppend(r, Frames(s, mode, subs, init, msg), FrameFor(s, mode, l, subs[l], msg));
    }
  }

  /** The frame for the agent itself arrives and is handled; another frame may arrive but is not handled. */
  lemma FrameIsAccepted(s: Sender, mode: GroupMode, subs: map<string, bytes>, me: string, r: Receiver, sub: string,
                        msg: bytes)
    requires Settled(s, mode, subs, me, r) && sub in subs
    ensures var frame := FrameFor(s, mode, sub, subs[sub], msg);
            if sub == me then Arrives(r, frame) && Handle(r, frame) == Some(Delivered(s.p.name, s.topic, msg))
            else Handle(r, frame).None?
  {
    FrameIsHandled(s, mode, subs, me, r, sub, msg);
    if sub == me {
      assert Matches(DataTopic(mode, s.topic, s.p.name, me), FrameFor(s, mode, sub, subs[sub], msg));
    }
  }

  /** Queue-mode equivalence: whatever the order in which the two modes publish and the random values they draw,
      a subscriber accepts the message exactly once in either mode, and any other agent accepts nothing. */
  lemma QueueModesAgree(s: Sender, rnd': string -> Random, mode: GroupMode, subs: map<string, bytes>,
                        order: seq<string>, order': seq<string>, me: string, r: Receiver, r': Receiver, msg: bytes)
    requires mode != SingleQueue
    requires Settled(s, SingleQueue, subs, me, r) && Settled(s.(rnd := rnd'), mode, subs, me, r')
    requires NoDuplicates(order) && (forall l :: l in order <==> l in subs)
    requires NoDuplicates(order') && (forall l :: l in order' <==> l in subs)
    ensures Accepted(r, Frames(s, SingleQueue, subs, order, msg)) ==
            Accepted(r', Frames(s.(rnd := rnd'), mode, subs, order', msg))
    ensures Accepted(r, Frames(s, SingleQueue, subs, order, msg)) ==
            if me in subs then [Delivered(s.p.name, s.topic, msg)] else []
  {
    AcceptedFrames(s, SingleQueue, subs, order, me, r, msg);
    AcceptedFrames(s.(rnd := rnd'), mode, subs, order', me, r', msg);
  }

  /** What arrives does differ: in single-queue mode a member receives the frame of every subscriber of every
      publisher, in multiple-queue mode only those of the subscribers whose label its own label is a prefix of. */
  lemma ArrivalsByMode(mode: GroupMode, topic: string, members: map<string, Member>, me: string, r: Receiver,
                       pub: string, sub: string, data: string)
    requires Keyed(members) && Plain(topic) && Plain(me) && Plain(pub) && Plain(sub)
    requires forall l :: l in members ==> Plain(l)
    requires pub in OtherPublishers(members, me)
    requires r.filters == PeerFilters(mode, topic, members, me)
    ensures Arrives(r, Frame(DataTopic(mode, topic, pub, sub), data)) <==> mode == SingleQueue || me <= sub
  {
    var frame := Frame(DataTopic(mode, topic, pub, sub), data);
    if mode == SingleQueue {
      SingleQueueFilters(topic, members, me, DataTopic(mode, topic, me, me));
      assert DataTopic(mode, topic, me, me) in r.filters by {
        assert OtherPublishers(members, me) != {};
      }
      SingleQueueMatch(topic, me, me, topic, pub, sub, data);
    } else {
      MultipleQueueFilters(mode, topic, members, me, DataTopic(mode, topic, pub, me));
      MultipleQueueMatch(topic, pub, me, topic, pub, sub, data, mode);
      forall f | f in r.filters && Matches(f, frame) ensures me <= sub {
        MultipleQueueFilters(mode, topic, members, me, f);
        var p :| p in OtherPublishers(members, me) && DataTopic(mode, topic, p, me) == f;
        MultipleQueueMatch(topic, p, me, topic, pub, sub, data, mode);
      }
    }
  }

  // ----------------------------------------------------------------------------------------- status

  /** The copy of a status sealed for one member. */
  function StatusFor(c: Setup, p: Prober, to: string, byts: bytes, rnd: Random): bytes
    requires to in p.peers && to in p.keys && ByType(p.peers[to].services, SERVC_GROUP_JOIN).Some?
  {
    c.s.marshalMsg(Pack(c.s, byts, ByType(p.peers[to].services, SERVC_GROUP_JOIN).value.pubKey, p.keys[to].pub,
                        p.keys[to].prv, rnd))
  }

  /** It is packed for the key of the member's first group-join service, with the pair kept for the member. */
  lemma StatusForIs(c: Setup, p: Prober, to: string, byts: bytes, rnd: Random, i: nat)
    requires to in p.peers && to in p.keys && i < |p.peers[to].services|
    requires p.peers[to].services[i].typ == "group-join-service"
    requires forall k :: 0 <= k < i ==> p.peers[to].services[k].typ != "group-join-service"
    ensures CanSeal(p, to)
    ensures StatusFor(c, p, to, byts, rnd) ==
            c.s.marshalMsg(Pack(c.s, byts, p.peers[to].services[i].pubKey, p.keys[to].pub, p.keys[to].prv, rnd))
  {
    FirstOfType(p.peers[to].services, "group-join-service", i);
  }

  /** Sealing for a peer needs its entry, its group-join service and the key pair kept for it. */
  function Sealing(p: Prober, to: string): Call<bool> {
    match ServiceOf(p, SERVC_GROUP_JOIN, to)
    case Panicked => Panicked
    case Returned(svc) => Returned(svc.Some? && to in p.keys)
  }

  predicate CanSeal(p: Prober, to: string) {
    Sealing(p, to) == Returned(true)
  }

  /** `authMsgs` holds, under the exchange id of every other member, a copy sealed for a member with that id. */
  ghost predicate SealedForAll(c: Setup, p: Prober, list: seq<Member>, byts: bytes, rnd: string -> Random,
                               authMsgs: map<string, bytes>) {
    (forall m :: m in list && m.name != p.name ==> m.name in p.peers && p.peers[m.name].exchId in authMsgs) &&
    (forall e :: e in authMsgs ==> exists m :: m in list && SealedAs(c, p, m, byts, rnd, e, authMsgs[e]))
  }

  /** `copy` is the status sealed for the member `m`, and `e` the exchange id of the connection with it. */
  ghost predicate SealedAs(c: Setup, p: Prober, m: Member, byts: bytes, rnd: string -> Random, e: string, copy: bytes) {
    m.name != p.name && CanSeal(p, m.name) && p.peers[m.name].exchId == e &&
    copy == StatusFor(c, p, m.name, byts, rnd(m.name))
  }

  /** All listed members but the sender can be sealed for. */
  ghost predicate AllSealable(p: Prober, list: seq<Member>) {
    forall k :: 0 <= k < |list| ==> list[k].name == p.name || CanSeal(p, list[k].name)
  }

  /** The first listed member that cannot be sealed for decides how sealing ends. */
  ghost predicate EndsAt(p: Prober, list: seq<Member>, k: nat, authMsgs: Call<Option<map<string, bytes>>>) {
    k < |list| && AllSealable(p, list[..k]) && list[k].name != p.name && !CanSeal(p, list[k].name) &&
    authMsgs == if Sealing(p, list[k].name).Panicked? then Panicked else Returned(None)
  }

  lemma SealableStep(p: Prober, list: seq<Member>, i: nat)
    requires i < |list| && AllSealable(p, list[..i])
    ensures AllSealable(p, list[..i + 1]) <==> list[i].name == p.name || CanSeal(p, list[i].name)
    ensures !AllSealable(p, list[..i + 1]) ==> !AllSealable(p, list)
  {
    assert list[..i + 1] == list[..i] + [list[i]];
  }

  /** `compressStatus`: seals for every listed member but the sender. */
  method CompressStatus(c: Setup, p: Prober, list: seq<Member>, byts: bytes, rnd: string -> Random)
    returns (authMsgs: Call<Option<map<string, bytes>>>)
    ensures if AllSealable(p, list)
            then authMsgs.Returned? && authMsgs.value.Some? && SealedForAll(c, p, list, byts, rnd, authMsgs.value.value)
            else exists k :: EndsAt(p, list, k, authMsgs)
  {
    var msgs: map<string, bytes> := map[];
    for i := 0 to |list|
      invariant AllSealable(p, list[..i]) && SealedForAll(c, p, list[..i], byts, rnd, msgs)
    {
      SealableStep(p, list, i);
      msgs, authMsgs := SealNext(c, p, list, i, byts, rnd, msgs);
      if authMsgs != Returned(Some(msgs)) {
        assert EndsAt(p, list, i, authMsgs);
        return;
      }
    }
    assert list[..|list|] == list;
    authMsgs := Returned(Some(msgs));
  }

  /** One round. */
  method SealNext(c: Setup, p: Prober, list: seq<Member>, i: nat, byts: bytes, rnd: string -> Random,
                  before: map<string, bytes>)
    returns (msgs: map<string, bytes>, authMsgs: Call<Option<map<string, bytes>>>)
    requires i < |list| && SealedForAll(c, p, list[..i], byts, rnd, before)
    ensures if list[i].name == p.name || CanSeal(p, list[i].name)
            then authMsgs == Returned(Some(msgs)) && SealedForAll(c, p, list[..i + 1], byts, rnd, msgs)
            else authMsgs == if Sealing(p, list[i].name).Panicked? then Panicked else Returned(None)
  {
    var m := list[i];
    if m.name == p.name {
      assert list[..i + 1] == list[..i] + [m];
      return before, Returned(Some(before));
    }
    var sealing := Sealing(p, m.name);
    if sealing.Panicked? {
      return before, Panicked;
    }
    if !sealing.value {
      return before, Returned(None);
    }
    SealedStep(c, p, list, i, byts, rnd, before);
    msgs := before[p.peers[m.name].exchId := StatusFor(c, p, m.name, byts, rnd(m.name))];
    authMsgs := Returned(Some(msgs));
  }

  lemma SealedStep(c: Setup, p: Prober, list: seq<Member>, i: nat, byts: bytes, rnd: string -> Random,
                   msgs: map<string, bytes>)
    requires i < |list| && list[i].name != p.name && CanSeal(p, list[i].name)
    requires SealedForAll(c, p, list[..i], byts, rnd, msgs)
    ensures var m := list[i];
            SealedForAll(c, p, list[..i + 1], byts, rnd,
                         msgs[p.peers[m.name].exchId := StatusFor(c, p, m.name, byts, rnd(m.name))])
  {
    var m := list[i];
    var msgs' := msgs[p.peers[m.name].exchId := StatusFor(c, p, m.name, byts, rnd(m.name))];
    assert list[..i + 1] == list[..i] + [m];
    forall e | e in msgs' ensures exists n :: n in list[..i + 1] && SealedAs(c, p, n, byts, rnd, e, msgs'[e]) {
      if e == p.peers[m.name].exchId {
        assert m in list[..i + 1] && SealedAs(c, p, m, byts, rnd, e, msgs'[e]);
      } else {
        var n :| n in list[..i] && SealedAs(c, p, n, byts, rnd, e, msgs[e]);
        assert n in list[..i + 1];
      }
    }
  }

  /** `state`: the first entry, in whatever order the map is ranged over, whose exchange id the receiver knows. */
  method SelectStatus(authMsgs: map<string, bytes>, peers: Peers) returns (validMsg: Option<bytes>)
    ensures validMsg.None? <==> forall e :: e in authMsgs ==> ByExchId(peers, e).None?
    ensures validMsg.Some? ==> exists e :: e in authMsgs && ByExchId(peers, e).Some? && validMsg.value == authMsgs[e]
  {
    var rest := authMsgs.Keys;
    while rest != {}
      invariant rest <= authMsgs.Keys
      invariant forall e :: e in authMsgs && e !in rest ==> ByExchId(peers, e).None?
      decreases rest
    {
      var exchId :| exchId in rest;
      var name, pr, ok := PeerByExchId(peers, exchId);
      if ok {
        return Some(authMsgs[exchId]);
      }
      rest := rest - {exchId};
    }
    validMsg := None;
  }

  /** Every handshake had its own exchange id: two entries of the agents' peer stores with one id belong to the
      two sides of one connection. */
  ghost predicate FreshIds(net: map<string, Prober>) {
    forall x, y, u, v ::
      x in net && y in net[x].peers && u in net && v in net[u].peers ==>
        net[x].peers[y].exchId == net[u].peers[v].exchId ==>
        (x == u && y == v) || (x == v && y == u)
  }

  /** Status selection is deterministic: of the sealed copies of a broadcast by `s`, exactly one has an exchange id
      that the intended receiver `r` knows, namely the one sealed for it; reading it gives the status, from `s`. */
  lemma SelectionIsDeterministic(c: Setup, net: map<string, Prober>, s: string, r: string, list: seq<Member>,
                                 byts: bytes, rnd: string -> Random, authMsgs: map<string, bytes>, e: string)
    requires LawfulSetup(c) && FreshIds(net) && (forall x :: x in net ==> net[x].name == x)
    requires s in net && r in net && s != r && Handshake.Connected(c, net[s], net[r])
    requires exists m :: m in list && m.name == r
    requires SealedForAll(c, net[s], list, byts, rnd, authMsgs)
    ensures e in authMsgs && ByExchId(net[r].peers, e).Some? <==> e == net[s].peers[r].exchId
    ensures net[s].peers[r].exchId in authMsgs &&
            ReadMessage(c, net[r].keys, authMsgs[net[s].peers[r].exchId]) == Message(s, byts)
  {
    var p, own := net[s], net[s].peers[r].exchId;
    if e in authMsgs && ByExchId(net[r].peers, e).Some? {
      var m :| m in list && SealedAs(c, p, m, byts, rnd, e, authMsgs[e]);
      KnownIdIsOwn(c, net, s, r, m.name);
    }
    KnownIdIsOwn(c, net, s, r, r);
    var m :| m in list && SealedAs(c, p, m, byts, rnd, own, authMsgs[own]);
    KnownIdIsOwn(c, net, s, r, m.name);
    OwnCopyIsRead(c, p, net[r], byts, rnd(r));
  }

  /** The receiver knows the exchange id of the sender's connection with `y` exactly when `y` is the receiver. */
  lemma KnownIdIsOwn(c: Setup, net: map<string, Prober>, s: string, r: string, y: string)
    requires FreshIds(net) && (forall x :: x in net ==> net[x].name == x)
    requires s in net && r in net && s != r && Handshake.Connected(c, net[s], net[r]) && y in net[s].peers
    ensures ByExchId(net[r].peers, net[s].peers[y].exchId).Some? <==> y == r
    ensures net[s].peers[y].exchId == net[s].peers[r].exchId <==> y == r
  {
    assert s in net[r].peers && net[r].peers[s].exchId == net[s].peers[r].exchId;
    var found := ByExchId(net[r].peers, net[s].peers[y].exchId);
    if found.Some? {
      assert net[r].peers[found.value].exchId == net[s].peers[y].exchId;
    }
  }

  lemma OwnCopyIsRead(c: Setup, p: Prober, q: Prober, byts: bytes, rnd: Random)
    requires LawfulSetup(c) && Handshake.Connected(c, p, q)
    ensures CanSeal(p, q.name)
    ensures ReadMessage(c, q.keys, StatusFor(c, p, q.name, byts, rnd)) == Message(p.name, byts)
  {
    assert SERVC_GROUP_JOIN in {SERVC_MESSAGE, SERVC_GROUP_JOIN};
    PackedIsRead(c, q.keys, p.name, p.keys[q.name], byts, rnd);
  }

  /** Whatever the iteration order, the intended receiver picks the copy sealed for it. */
  method ReceiveStatus(c: Setup, ghost net: map<string, Prober>, ghost s: string, r: Prober, ghost list: seq<Member>,
                       ghost byts: bytes,
                       ghost rnd: string -> Random, authMsgs: map<string, bytes>) returns (validMsg: Option<bytes>)
    requires LawfulSetup(c) && FreshIds(net) && (forall x :: x in net ==> net[x].name == x)
    requires s in net && r.name in net && net[r.name] == r && s != r.name && Handshake.Connected(c, net[s], r)
    requires exists m :: m in list && m.name == r.name
    requires SealedForAll(c, net[s], list, byts, rnd, authMsgs)
    ensures validMsg.Some? && ReadMessage(c, r.keys, validMsg.value) == Message(s, byts)
  {
    validMsg := SelectStatus(authMsgs, r.peers);
    SelectionIsDeterministic(c, net, s, r.name, list, byts, rnd, authMsgs, net[s].peers[r.name].exchId);
    if validMsg.Some? {
      ghost var e :| e in authMsgs && ByExchId(r.peers, e).Some? && validMsg.value == authMsgs[e];
      SelectionIsDeterministic(c, net, s, r.name, list, byts, rnd, authMsgs, e);
    }
  }
}
