/** The group agent's operations on its stores, its sockets and its clocks, in the order of `pubsub/agent.go` and
    `pubsub/processor.go`.  Each method is proved to compute the corresponding local step of the membership protocol
    when all goes well, and for every failure what it leaves behind. */
module GroupAgent {
  import opened GoStrings
  import opened Base64
  import opened Models
  import opened Topics
  import opened Validator
  import opened GroupStore
  import opened SubscriberStore
  import opened DataFilters
  import opened LocalSteps
  import opened Listeners
  import opened Prober
  import opened Delivery
  import ControlPlane
  import Envelope
  import JoinCheck
  import Syncer

  /** How an operation of the agent ends: an error each time something is not as it should be, or a panic. */
  datatype Result =
    | Done | Panic
    | AlreadyJoined | InvalidMode | NotConnected | Inconsistent // joining
    | NotMember | NotPublisher | NotRegistered | NotPublished   // sending
    | NotUnsubscribed | NoMembers                               // leaving
    | NotTold                                                   // joining and leaving

  // --------------------------------------------------------------------- requests to the listeners

  /** Which operations of the two SUB sockets work. */
  datatype Net = Net(state: Socket, data: Socket)

  /** A request that does not make the data listener panic succeeds: both listeners reply without an error. */
  ghost predicate Passes(groups: Groups, msg: Internal, net: Net) {
    ControlPlane.OutcomeOf(groups, msg, net.state, net.data) == ControlPlane.Outcome(true, true)
  }

  /** The messages of the agent's requests.  A request waits on channels of its own, so the reply ids are left blank. */
  function ConnectTo(me: string, topic: string, m: Member): Internal {
    Connect(true, RoleSubscriber, me, topic, m, "", "")
  }

  function DisconnectFrom(m: Member): Internal {
    Connect(false, RoleNull, "", "", m, "", "")
  }

  function UnsubscribeFrom(me: string, topic: string, m: Member): Internal {
    Subscribe(false, false, me, topic, false, true, m, "", "")
  }

  function UnsubscribeAllOf(me: string, topic: string): Internal {
    Subscribe(false, true, me, topic, true, true, Member(false, false, "", "", ""), "", "")
  }

  // ------------------------------------------------------------------------------ joining, in parts

  /** A member's answer to a subscription. */
  datatype Response = Response(servrPubKey: string, clientPubKey: string, publisher: bool, checksum: string)

  /** A member that did not answer is authenticated with empty keys. */
  function AuthOf(answers: map<string, Response>, l: string): Internal {
    if l in answers then Authenticate(l, answers[l].servrPubKey, answers[l].clientPubKey, answers[l].publisher, "", "")
    else Authenticate(l, "", "", false, "", "")
  }

  function Checksums(answers: map<string, Response>): map<string, string> {
    map l | l in answers :: answers[l].checksum
  }

  /** The keys a joiner takes from its peer entries. */
  function KeysOf(p: Prober): string -> Key {
    l => KeyFor(p, l)
  }

  /** How connecting to a listed member ends; the group store has the topic's parameters. */
  ghost function Connecting(groups: Groups, topic: string, me: string, publisher: bool, m: Member, auth: Internal,
                            p: Prober, net: Net): Call<bool> {
    if !Passes(groups, auth, net) || !Passes(groups, ConnectTo(me, topic, m), net) then Returned(false)
    else if !publisher then Returned(true)
    else if PeerKey(p, m.name).Panicked? then Panicked
    else Returned(PeerKey(p, m.name).value.Some?)
  }

  /** All active listed members can be connected to. */
  ghost predicate AllConnect(groups: Groups, topic: string, me: string, publisher: bool, list: seq<Member>,
                             answers: map<string, Response>, p: Prober, net: Net) {
    forall k :: 0 <= k < |list| && list[k].active ==>
      Connecting(groups, topic, me, publisher, list[k], AuthOf(answers, list[k].name), p, net) == Returned(true)
  }

  lemma ConnectStep(groups: Groups, topic: string, me: string, publisher: bool, list: seq<Member>,
                    answers: map<string, Response>, p: Prober, net: Net, i: nat)
    requires i < |list| && AllConnect(groups, topic, me, publisher, list[..i], answers, p, net)
    ensures var done := Connecting(groups, topic, me, publisher, list[i], AuthOf(answers, list[i].name), p, net);
            if list[i].active && done != Returned(true)
              then !AllConnect(groups, topic, me, publisher, list, answers, p, net)
            else AllConnect(groups, topic, me, publisher, list[..i + 1], answers, p, net)
  {
    assert list[..i + 1] == list[..i] + [list[i]];
  }

  /** Spelled out, for a topic that has its parameters and no member yet: the member is authenticated on the state
      socket with the keys it answered, server key first, and on the data socket if it answered that it publishes; the
      state socket, and for a publisher the data socket, connects and subscribes to it; and a joiner that publishes
      finds the member's group-join key. */
  lemma ConnectingIff(groups: Groups, topic: string, me: string, publisher: bool, m: Member,
                      answers: map<string, Response>, p: Prober, net: Net)
    requires topic in groups && groups[topic].params.Some? && groups[topic].members == map[]
    ensures Connecting(groups, topic, me, publisher, m, AuthOf(answers, m.name), p, net) == Returned(true) <==>
              var connect := Connect(true, RoleSubscriber, me, topic, m, "", "");
              (if m.name in answers then
                 var answer := answers[m.name];
                 var auth := Authenticate(m.name, answer.servrPubKey, answer.clientPubKey, answer.publisher, "", "");
                 auth in net.state.works && (answer.publisher ==> auth in net.data.works)
               else Authenticate(m.name, "", "", false, "", "") in net.state.works) &&
              connect in net.state.dials && connect in net.state.works &&
              (m.publisher ==> connect in net.data.dials && connect in net.data.works) &&
              (publisher ==> PeerKey(p, m.name).Returned? && PeerKey(p, m.name).value.Some?)
  {
  }

  /** How a join ends whose topic has got its parameters: `groups` is the store then, `a` the agent's state before, and
      `a'` its state at the end. */
  ghost predicate JoinEnds(h: Digest, topic: string, me: string, acceptor: string, gp: GroupParams, list: seq<Member>,
                           answers: map<string, Response>, joiner: Member, net: Net, out: Outbound, groups: Groups,
                             a: Agent, a': Agent, result: Result) {
    var entered := a.(group := Some(EMPTY.(params := Some(gp))));
    var connected := ConnectedAll(topic, entered, me, gp.mode, joiner.publisher, list, KeysOf(out.p));
    var joined := connected.(group := Some(Populated(h, Agent(None, map[], multiset{}), gp, list + [joiner])));
    var allConnect := AllConnect(groups, topic, me, joiner.publisher, list, answers, out.p, net);
    var proceeds := allConnect && (gp.joinConsistent ==> JoinCheck.Consistent(h, acceptor, list, Checksums(answers)));
    (result == Done <==> proceeds && OthersSealable(out.p, Members(joined)) && out.tells) &&
    (result == Inconsistent <==> allConnect && !proceeds) &&
    (result == NotTold ==> proceeds) &&
    (result == NotConnected ==> !allConnect) && (!allConnect ==> result == NotConnected || result == Panic) &&
    (result == Panic ==> !allConnect || !OthersSealable(out.p, Members(joined))) &&
    (result == Done || result == NotTold ==> a' == joined) &&
    (result == Inconsistent ==> a' == connected) &&
    (result == NotConnected ==>
       exists k :: StoppedAt(groups, topic, me, joiner.publisher, gp.mode, list, k, answers, out.p, net, entered, a'))
  }

  /** Connecting stopped at the entry `k`: the earlier active ones are connected to, and that one's filter is set if
      its authentication passed and the data listener connected to it. */
  ghost predicate StoppedAt(groups: Groups, topic: string, me: string, publisher: bool, mode: GroupMode,
                            list: seq<Member>, k: nat, answers: map<string, Response>, p: Prober, net: Net,
                            a: Agent, a': Agent) {
    k < |list| && list[k].active && AllConnect(groups, topic, me, publisher, list[..k], answers, p, net) &&
    var before := ConnectedAll(topic, a, me, mode, publisher, list[..k], KeysOf(p));
    a' == before.(filters :=
      if Passes(groups, AuthOf(answers, list[k].name), net)
      then ConnectFilters(groups, ConnectTo(me, topic, list[k]), net.data, before.filters) else before.filters)
  }

  /** The state of a joiner that is done is the joined one of the membership protocol. */
  lemma JoinedAtEnd(h: Digest, topic: string, me: string, acceptor: string, gp: GroupParams, list: seq<Member>,
                    answers: map<string, Response>, joiner: Member, net: Net, out: Outbound, groups: Groups,
                    a: Agent, a': Agent, result: Result)
    requires JoinEnds(h, topic, me, acceptor, gp, list, answers, joiner, net, out, groups, a, a', result)
    requires a.group.None? && me == joiner.name && (result == Done || result == NotTold)
    ensures a' == Joined(h, topic, a, gp, list, joiner, KeysOf(out.p))
  {
    ConnectedAllGroup(topic, a, Some(EMPTY.(params := Some(gp))), me, gp.mode, joiner.publisher, list, KeysOf(out.p));
  }

  /** The group entry that the agent had does not matter, and a finished join of an agent without one is `Joined`. */
  lemma JoinEndsWithParams(h: Digest, topic: string, me: string, acceptor: string, gp: GroupParams, list: seq<Member>,
                           answers: map<string, Response>, joiner: Member, net: Net, out: Outbound, groups: Groups,
                             a: Agent, a': Agent, result: Result)
    requires JoinEnds(h, topic, me, acceptor, gp, list, answers, joiner, net, out, groups,
                      a.(group := Some(EMPTY.(params := Some(gp)))), a', result)
    ensures JoinEnds(h, topic, me, acceptor, gp, list, answers, joiner, net, out, groups, a, a', result)
    ensures a.group.None? && me == joiner.name && (result == Done || result == NotTold) ==>
              a' == Joined(h, topic, a, gp, list, joiner, KeysOf(out.p))
  {
    if a.group.None? && me == joiner.name && (result == Done || result == NotTold) {
      JoinedAtEnd(h, topic, me, acceptor, gp, list, answers, joiner, net, out, groups, a, a', result);
    }
  }

  /** When a join fails to connect, spelled out. */
  lemma JoinSpelledOut(h: Digest, topic: string, me: string, acceptor: string, gp: GroupParams, list: seq<Member>,
                       answers: map<string, Response>, joiner: Member, net: Net, out: Outbound, groups: Groups,
                       a: Agent, a': Agent, result: Result)
    requires JoinEnds(h, topic, me, acceptor, gp, list, answers, joiner, net, out, groups, a, a', result)
    requires topic in groups && groups[topic] == EMPTY.(params := Some(gp))
    ensures if forall m :: m in list && m.active ==>
                 var connect := Connect(true, RoleSubscriber, me, topic, m, "", "");
                 (if m.name in answers then
                    var answer := answers[m.name];
                    var auth := Authenticate(m.name, answer.servrPubKey, answer.clientPubKey, answer.publisher, "", "");
                    auth in net.state.works && (answer.publisher ==> auth in net.data.works)
                  else Authenticate(m.name, "", "", false, "", "") in net.state.works) &&
                 connect in net.state.dials && connect in net.state.works &&
                 (m.publisher ==> connect in net.data.dials && connect in net.data.works) &&
                 (joiner.publisher ==> PeerKey(out.p, m.name).Returned? && PeerKey(out.p, m.name).value.Some?)
            then result != NotConnected else result == NotConnected || result == Panic
    ensures |list| > 1 && gp.joinConsistent && (result == Done || result == NotTold) ==>
              forall m :: m in list && m.active && m.name != acceptor ==>
                m.name in answers && answers[m.name].checksum == Checksum(h, list)
    ensures result == Inconsistent ==>
              |list| > 1 && gp.joinConsistent &&
              exists m :: m in list && m.active && m.name != acceptor &&
                          (m.name !in answers || answers[m.name].checksum != Checksum(h, list))
  {
    forall m | m in list {
      ConnectingIff(groups, topic, me, joiner.publisher, m, answers, out.p, net);
    }
    assert AllConnect(groups, topic, me, joiner.publisher, list, answers, out.p, net) <==>
           forall m :: m in list && m.active ==>
             Connecting(groups, topic, me, joiner.publisher, m, AuthOf(answers, m.name), out.p, net) == Returned(true);
  }

  /** `after` has the topic `n` times more often than `before`, and all others equally often. */
  ghost predicate MoreFilters(before: multiset<string>, after: multiset<string>, topic: string, n: nat) {
    forall t :: after[t] == before[t] + if t == topic then n else 0
  }

  lemma OneMoreFilter(before: multiset<string>, after: multiset<string>, topic: string, list: seq<Member>, i: nat)
    requires i < |list| && MoreFilters(before, after, topic, |ActiveOnly(list[..i])|)
    ensures if list[i].active then MoreFilters(before, after + multiset{topic}, topic, |ActiveOnly(list[..i + 1])|)
            else MoreFilters(before, after, topic, |ActiveOnly(list[..i + 1])|)
  {
    assert list[..i + 1][..i] == list[..i];
  }

  lemma JoinerIsLast(list: seq<Member>, joiner: Member)
    ensures joiner.name in Merged(map[], list + [joiner]) && Merged(map[], list + [joiner])[joiner.name] == joiner
  {
    assert (list + [joiner])[..|list|] == list;
  }

  // ------------------------------------------------------------------------------------- broadcasts

  /** What sealing and publishing need: the prober, the JSON encoding of a member, the random values per recipient,
      and whether publishing a status works. */
  datatype Outbound = Outbound(c: Setup, p: Prober, marshal: Member -> seq<byte>, rnd: string -> Envelope.Random,
                               tells: bool)

  /** A published status: the record, and the copies sealed for the recipients under their exchange ids. */
  datatype Broadcast = Broadcast(member: Member, authMsgs: map<string, seq<byte>>)

  /** The broadcast carries the record `m`, sealed for every other member. */
  ghost predicate Tells(told: Broadcast, m: Member, members: map<string, Member>, out: Outbound) {
    told.member == m &&
    exists list :: Lists(list, members) && SealedForAll(out.c, out.p, list, out.marshal(m), out.rnd, told.authMsgs)
  }

  /** All other members can be sealed for. */
  ghost predicate OthersSealable(p: Prober, members: map<string, Member>) {
    forall l :: l in members ==> l == p.name || CanSeal(p, l)
  }

  /** The sealed copies are those for the other members. */
  lemma CopiesOf(out: Outbound, list: seq<Member>, members: map<string, Member>, status: seq<byte>,
                 authMsgs: map<string, seq<byte>>)
    requires Lists(list, members) && Keyed(members)
    requires SealedForAll(out.c, out.p, list, status, out.rnd, authMsgs)
    ensures forall l :: l in members && l != out.p.name ==> l in out.p.peers && out.p.peers[l].exchId in authMsgs
    ensures forall e :: e in authMsgs ==>
              exists l ::
                l in members && l != out.p.name && CanSeal(out.p, l) && out.p.peers[l].exchId == e &&
                authMsgs[e] == StatusFor(out.c, out.p, l, status, out.rnd(l))
  {
    forall l | l in members && l != out.p.name ensures l in out.p.peers && out.p.peers[l].exchId in authMsgs {
      assert members[l] in list;
    }
    forall e | e in authMsgs
      ensures exists l :: l in members && l != out.p.name && CanSeal(out.p, l) && out.p.peers[l].exchId == e &&
                          authMsgs[e] == StatusFor(out.c, out.p, l, status, out.rnd(l))
    {
      var m :| m in list && SealedAs(out.c, out.p, m, status, out.rnd, e, authMsgs[e]);
      assert m.name in members;
    }
  }

  lemma SealableListing(p: Prober, list: seq<Member>, members: map<string, Member>)
    requires Lists(list, members) && Keyed(members)
    ensures AllSealable(p, list) <==> OthersSealable(p, members)
  {
    forall k | 0 <= k < |list| ensures list[k].name in members && members[list[k].name] == list[k] {
      assert list[k] in list;
    }
    forall l | l in members ensures exists k :: 0 <= k < |list| && list[k].name == l {
      assert members[l] in list;
    }
  }

  // --------------------------------------------------------------------------------- leaving members

  /** Removing a member comes as far as the stores. */
  ghost predicate Removable(groups: Groups, topic: string, me: string, m: Member, net: Net) {
    Passes(groups, DisconnectFrom(m), net) &&
    (m.publisher ==> ModeKnown(groups, topic) && Passes(groups, UnsubscribeFrom(me, topic, m), net))
  }

  /** How it ends: the data listener panics for a publisher of a topic without parameters, and the store does for the
      last member. */
  ghost function Removing(groups: Groups, topic: string, me: string, m: Member, net: Net,
                          removesKeys: bool): Call<bool> {
    if Removable(groups, topic, me, m, net) then
      if topic in groups && groups[topic].members.Keys <= {m.name} then Panicked else Returned(removesKeys)
    else if Passes(groups, DisconnectFrom(m), net) && m.publisher && !ModeKnown(groups, topic) then Panicked
    else Returned(false)
  }

  /** Spelled out: the state socket disconnects from the member, and for a publisher of a topic with parameters the
      data socket unsubscribes and disconnects from it; no other member matters. */
  lemma RemovableIff(groups: Groups, topic: string, me: string, m: Member, net: Net)
    ensures Removable(groups, topic, me, m, net) <==>
              m.name in net.state.hangsUp &&
              (m.publisher ==>
               topic in groups && groups[topic].params.Some? && m.name in net.data.unsubscribes &&
               m.name in net.data.hangsUp)
    ensures m.publisher && Removable(groups, topic, me, m, net) ==>
              ConnectFilter(groups[topic].params.value.mode, topic, m, me) ==
                multiset{DataTopic(groups[topic].params.value.mode, topic, m.name, me)}
    ensures !m.publisher ==> forall mode :: ConnectFilter(mode, topic, m, me) == multiset{}
  {
  }

  /** What a removal does, spelled out. */
  lemma RemovalSpelledOut(h: Digest, groups: Groups, topic: string, me: string, m: Member, net: Net, removesKeys: bool,
                          a: Agent, a': Agent)
    requires KeyedStore(groups) && !m.active && a.group == if topic in groups then Some(groups[topic]) else None
    requires Removable(groups, topic, me, m, net) ==> a' == StatusApplied(h, topic, a, me, m)
    ensures var gone := m.name in net.state.hangsUp &&
                        (m.publisher ==>
                         topic in groups && groups[topic].params.Some? && m.name in net.data.unsubscribes &&
                         m.name in net.data.hangsUp);
            (gone ==>
               Members(a') == Members(a) - {m.name} && a'.subs == a.subs - {m.name} &&
               a'.filters == a.filters -
                 if m.publisher then multiset{DataTopic(groups[topic].params.value.mode, topic, m.name, me)}
                 else multiset{}) &&
            (Removing(groups, topic, me, m, net, removesKeys) == Returned(true) <==>
             gone && removesKeys && (topic in groups ==> !(Members(a).Keys <= {m.name})))
  {
    RemovableIff(groups, topic, me, m, net);
  }

  // -------------------------------------------------------------------------------------- the agent

  /** How a send of a publisher with an index ends. */
  ghost predicate SendEnds(s: Sender, a: Agent, msg: seq<byte>, publishes: iset<string>, result: Result,
                           frames: seq<string>, order: seq<string>) {
    (result == Done <==> forall l :: l in a.subs ==> l in s.p.keys && l in publishes && HasMode(a)) &&
    (result == Panic ==> !HasMode(a)) &&
    (result == NotPublished ==> exists l :: l in a.subs && (l !in s.p.keys || l !in publishes)) &&
    (result == Done || result == Panic || result == NotPublished) &&
    NoDuplicates(order) && (forall l :: l in order ==> l in a.subs && l in s.p.keys) &&
    (result == Done ==> Enumerates(order, a.subs.Keys)) &&
    (if HasMode(a) then frames == Frames(s, Mode(a), a.subs, order, msg) else frames == [])
  }

  lemma PublishedEnds(s: Sender, a: Agent, mode: Option<GroupMode>, msg: seq<byte>, publishes: iset<string>,
                      done: Call<bool>, frames: seq<string>, order: seq<string>)
    requires NoDuplicates(order) && forall l :: l in order ==> l in a.subs && l in s.p.keys
    requires mode == if HasMode(a) then Some(Mode(a)) else None
    requires if mode.Some? then frames == Frames(s, mode.value, a.subs, order, msg) else frames == []
    requires done == Returned(true) <==> forall l :: l in a.subs ==> l in s.p.keys && l in publishes && mode.Some?
    requires done == Returned(true) ==> forall l :: l in a.subs ==> l in order
    requires done == Panicked ==> mode.None?
    requires done == Returned(false) ==> exists l :: l in a.subs && (l !in s.p.keys || l !in publishes)
    ensures SendEnds(s, a, msg, publishes, if done.Panicked? then Panic else if done.value then Done else NotPublished,
                     frames, order)
  {
  }

  /** How unsubscribing from all of a topic's data and its statuses ends. */
  ghost function Unsubscribing(groups: Groups, topic: string, me: string, net: Net): Call<bool> {
    var msg := UnsubscribeAllOf(me, topic);
    if DataPanics(groups, msg, net.data) then Panicked else Returned(Passes(groups, msg, net))
  }

  /** Spelled out: the state socket unsubscribes and disconnects from every other member, and the data socket
      unsubscribes and disconnects from every other publisher. */
  lemma UnsubscribingIff(groups: Groups, topic: string, me: string, net: Net)
    requires KeyedStore(groups)
    ensures var msg := Subscribe(false, true, me, topic, true, true, Member(false, false, "", "", ""), "", "");
            var members := if topic in groups then groups[topic].members else map[];
            var panics := topic in groups && groups[topic].params.None? &&
                          exists l :: l in members && l != me && members[l].publisher;
            (Unsubscribing(groups, topic, me, net) == Panicked <==> panics) &&
            (Unsubscribing(groups, topic, me, net) == Returned(true) <==>
             !panics &&
             msg in net.state.works &&
             forall l :: l in members && l != me ==>
               l in net.state.hangsUp && (members[l].publisher ==> l in net.data.unsubscribes && l in net.data.hangsUp))
  {
    var members := Existing(groups, topic).members;
    assert forall l :: l in members ==> (Wanted(members[l], me) <==> l != me && members[l].publisher);
  }

  /** How a leave ends. */
  ghost predicate LeaveEnds(groups: Groups, topic: string, me: string, net: Net, out: Outbound, result: Result) {
    var unsubscribed, members := Unsubscribing(groups, topic, me, net), Existing(groups, topic).members;
    if unsubscribed.Panicked? then result == Panic
    else if !unsubscribed.value then result == NotUnsubscribed
    else if members == map[] then result == NoMembers
    else if OthersSealable(out.p, members) then result == if out.tells then Done else NotTold
    else result == NotTold || result == Panic
  }

  /** How a leave ends, spelled out. */
  lemma LeaveSpelledOut(groups: Groups, topic: string, members: map<string, Member>, me: string, net: Net,
                        out: Outbound, result: Result)
    requires KeyedStore(groups) && LeaveEnds(groups, topic, me, net, out, result)
    requires members == Existing(groups, topic).members
    ensures var msg := Subscribe(false, true, me, topic, true, true, Member(false, false, "", "", ""), "", "");
            if topic in groups && groups[topic].params.None? &&
               exists l :: l in members && l != me && members[l].publisher
            then result == Panic
            else result != NotUnsubscribed <==>
                   msg in net.state.works &&
                   forall l :: l in members && l != me ==>
                     l in net.state.hangsUp &&
                     (members[l].publisher ==> l in net.data.unsubscribes && l in net.data.hangsUp)
  {
    UnsubscribingIff(groups, topic, me, net);
  }

  /** What a leave that fails has done to the filters. */
  ghost predicate LeaveFilters(groups: Groups, topic: string, me: string, net: Net, a: Agent, filters: multiset<string>,
                               result: Result)
    requires Keyed(Members(a))
  {
    (result == NotUnsubscribed ==> DataEffect(groups, UnsubscribeAllOf(me, topic), net.data, a.filters, filters)) &&
    (result == NoMembers ==> filters == a.filters) && (result == NotTold ==> filters == Left(topic, a, me).filters)
  }

  /** Setting the parameters and then adding members populates the group. */
  lemma PopulatedGroup(h: Digest, gs: Groups, topic: string, gp: GroupParams, mems: seq<Member>)
    requires KeyedStore(gs) && gp.mode.Valid() && mems != []
    ensures KeyedStore(ParamsSet(gs, topic, gp))
    ensures var a := Agent(if topic in gs then Some(gs[topic]) else None, map[], multiset{});
            topic in Added(h, ParamsSet(gs, topic, gp), topic, mems) &&
            Added(h, ParamsSet(gs, topic, gp), topic, mems)[topic] == Populated(h, a, gp, mems)
  {
  }

  class GroupAgent {
    const myLabel: string
    const pubEndpoint: string
    const gs: Store
    const subs: Subscriber
    const st: StateListener
    const zmq: DataListener
    const syncr: Syncer.Syncer
    var invs: map<string, string>

    constructor (myLabel: string, pubEndpoint: string, h: Digest, id: int, codec: Syncer.Codec)
      requires IsDigest(h)
      ensures Valid() && fresh(gs) && fresh(subs) && fresh(st) && fresh(zmq) && fresh(syncr)
      ensures forall topic :: Local(topic) == Agent(None, map[], multiset{})
    {
      this.myLabel, this.pubEndpoint := myLabel, pubEndpoint;
      var store := new Store(h);
      gs := store;
      subs := new Subscriber();
      st := new StateListener(store);
      zmq := new DataListener(store);
      syncr := new Syncer.Syncer(id, codec);
      invs := map[];
    }

    ghost predicate Valid()
      reads gs
    {
      st.gs == gs && zmq.gs == gs && gs.Valid()
    }

    /** The agent's state for one topic. */
    ghost function Local(topic: string): Agent
      reads gs, subs, zmq
    {
      Agent(if topic in gs.groups then Some(gs.groups[topic]) else None, OfTopic(subs.subs, topic), zmq.filters)
    }

    /** The state for a topic, without the filters, which all topics share. */
    ghost function Stores(topic: string): (Option<Group>, map<string, Key>)
      reads gs, subs
    {
      (if topic in gs.groups then Some(gs.groups[topic]) else None, OfTopic(subs.subs, topic))
    }

    /** The members of a topic. */
    ghost function Held(topic: string): map<string, Member>
      reads gs
    {
      Existing(gs.groups, topic).members
    }

    /** The agent's record as it publishes it. */
    function Status(topic: string, active: bool, publisher: bool): Member
      reads this
    {
      Member(active, publisher, myLabel, if topic in invs then invs[topic] else "", pubEndpoint)
    }

    /** The broadcast of a leaver: its record, which is the one it is registered with, no longer active. */
    ghost predicate TellsLeaving(told: Broadcast, topic: string, members: map<string, Member>, out: Outbound)
      reads this
    {
      Tells(told, Status(topic, false, myLabel in members && members[myLabel].publisher), members, out) &&
      (IsRegistered(topic, members) ==> told.member == members[myLabel].(active := false))
    }

    ghost predicate IsRegistered(topic: string, members: map<string, Member>)
      reads this
    {
      myLabel in members && members[myLabel] == Status(topic, true, members[myLabel].publisher)
    }

    /** The agent is a member of the topic with the record it has published. */
    ghost predicate Registered(topic: string)
      reads this, gs
    {
      IsRegistered(topic, Held(topic))
    }

    /** `sendConnect`, `sendSubscribe` and `sendAuth`: both listeners get the message, and the request waits for the
        state reply and, if that is no error, for the data reply. */
    method Request(msg: Internal, net: Net) returns (ok: Call<bool>)
      requires Valid()
      modifies st, zmq
      ensures Valid()
      ensures ok == if DataPanics(gs.groups, msg, net.data) then Panicked else Returned(Passes(gs.groups, msg, net))
      ensures ok.Returned? ==> DataEffect(gs.groups, msg, net.data, old(zmq.filters), zmq.filters)
      ensures st.filters == StateFilters(gs.groups, msg, net.state, old(st.filters))
    {
      var stateReplies := st.HandleState(msg, net.state);
      var dataReplies := zmq.HandleData(msg, net.data);
      if dataReplies.Panicked? {
        return Panicked;
      }
      if stateReplies[0].failed {
        return Returned(false);
      }
      ok := Returned(!dataReplies.value[0].failed);
    }

    method Create(topic: string, publisher: bool, gp: GroupParams, inv: string, now: Syncer.int64) returns (ok: bool)
      requires Valid()
      modifies this, gs, syncr
      ensures Valid()
      ensures ok == gp.mode.Valid()
      ensures ok ==>
                Local(topic) == Created(gs.h, old(Local(topic)), gp, Member(true, publisher, myLabel, inv, pubEndpoint))
      ensures ok ==> Registered(topic)
      ensures !ok ==> Local(topic) == old(Local(topic))
      ensures invs == old(invs)[topic := inv]
      ensures syncr.tsMap ==
              if ok && gp.orderEnabled then old(syncr.tsMap)[topic := Syncer.Ts(syncr.id, now)] else old(syncr.tsMap)
      ensures forall t :: t != topic ==> Stores(t) == old(Stores(t))
    {
      var m := Member(true, publisher, myLabel, inv, pubEndpoint);
      invs := invs[topic := inv];
      ok := SetParamsAndAdd(topic, gp, m);
      StartClock(topic, ok && gp.orderEnabled, now);
    }

    /** An ordered topic gets a clock. */
    method StartClock(topic: string, ordered: bool, now: Syncer.int64)
      modifies syncr
      ensures syncr.tsMap ==
              if ordered then old(syncr.tsMap)[topic := Syncer.Ts(syncr.id, now)] else old(syncr.tsMap)
    {
      if ordered {
        syncr.Init(topic, now);
      }
    }

    /** The group gets its parameters and its first member. */
    method SetParamsAndAdd(topic: string, gp: GroupParams, m: Member) returns (ok: bool)
      requires Valid()
      modifies gs
      ensures Valid()
      ensures ok == gp.mode.Valid()
      ensures ok ==> Local(topic) == Created(gs.h, old(Local(topic)), gp, m)
      ensures ok && m == Status(topic, true, m.publisher) ==> Registered(topic)
      ensures !ok ==> Local(topic) == old(Local(topic))
      ensures forall t :: t != topic ==> Stores(t) == old(Stores(t))
    {
      PopulatedGroupIfValid(gs.h, gs.groups, topic, gp, [m]);
      MergedOne(Existing(gs.groups, topic).members, m);
      ok := gs.SetParams(topic, gp);
      if ok {
        AddOne(topic, m);
        assert Held(topic) == Existing(old(gs.groups), topic).members[m.name := m];
      }
    }

    method AddOne(topic: string, m: Member)
      requires Valid()
      modifies gs
      ensures Valid() && gs.groups == Apply(gs.h, old(gs.groups), Operation.AddMembrs(topic, [m]))
    {
      var done := gs.AddMembrs(topic, [m]);
    }

    lemma PopulatedGroupIfValid(h: Digest, groups: Groups, topic: string, gp: GroupParams, mems: seq<Member>)
      requires KeyedStore(groups) && mems != []
      ensures gp.mode.Valid() ==>
                KeyedStore(ParamsSet(groups, topic, gp)) &&
                topic in Added(h, ParamsSet(groups, topic, gp), topic, mems) &&
                Added(h, ParamsSet(groups, topic, gp), topic, mems)[topic] ==
                  Populated(h, Agent(if topic in groups then Some(groups[topic]) else None, map[], multiset{}), gp,
                            mems)
    {
      if gp.mode.Valid() {
        PopulatedGroup(h, groups, topic, gp, mems);
      }
    }

    /** `subscriptions`: a peer unsubscribes, or a joiner subscribes.  The answer, which tells whether this agent
        publishes, and its checksum, is sent before connecting to the joiner and indexing its key. */
    method Answer(topic: string, subscribe: bool, j: Member, transport: (string, string), key: Key, packs: bool,
                  net: Net)
      returns (answer: Option<(bool, string)>, done: Call<bool>)
      requires Valid()
      modifies subs, st, zmq
      ensures Valid()
      ensures !subscribe ==>
                answer.None? && done == Returned(true) &&
                  Local(topic) == old(Local(topic)).(subs := old(Local(topic)).subs - {j.name})
      ensures answer.Some? <==>
                subscribe &&
                  Passes(gs.groups, Authenticate(j.name, transport.0, transport.1, j.publisher, "", ""), net) &&
                myLabel in Held(topic) && packs
      ensures answer.Some? ==>
                topic in gs.groups && answer.value == (Held(topic)[myLabel].publisher, gs.groups[topic].checksum)
      ensures answer.None? && subscribe ==> done == Returned(false) && Local(topic) == old(Local(topic))
      ensures answer.Some? ==>
                var connect := ConnectTo(myLabel, topic, j);
                done == if DataPanics(gs.groups, connect, net.data)
                  then Panicked else Returned(Passes(gs.groups, connect, net))
      ensures var connect := Connect(true, RoleSubscriber, myLabel, topic, j, "", "");
              st.filters == if answer.Some? && connect in net.state.dials && connect in net.state.works &&
                               !(topic in gs.groups && |gs.groups[topic].members| >= 2)
                then old(st.filters) + multiset{StateTopic(topic)} else old(st.filters)
      ensures answer.Some? && done == Returned(true) ==>
                Local(topic) == Subscribed(topic, old(Local(topic)), myLabel, j, key)
      ensures answer.Some? && done == Returned(false) ==>
                Local(topic) ==
                  old(Local(topic)).(filters := ConnectFilters(gs.groups, ConnectTo(myLabel, topic, j), net.data,
                                                               old(zmq.filters)))
      ensures forall t :: t != topic ==> Stores(t) == old(Stores(t))
    {
      if !subscribe {
        subs.Delete(topic, j.name);
        OtherTopics(old(subs.subs), subs.subs, topic);
        return None, Returned(true);
      }
      answer := AnswerJoiner(topic, j, transport, packs, net);
      if answer.None? {
        return None, Returned(false);
      }
      done := ConnectAndIndex(topic, j, key, net);
    }

    /** The joiner is authenticated and sent the answer. */
    method AnswerJoiner(topic: string, j: Member, transport: (string, string), packs: bool, net: Net)
      returns (answer: Option<(bool, string)>)
      requires Valid()
      modifies st, zmq
      ensures Valid() && zmq.filters == old(zmq.filters) && st.filters == old(st.filters)
      ensures answer.Some? <==>
                Passes(gs.groups, Authenticate(j.name, transport.0, transport.1, j.publisher, "", ""), net) &&
                myLabel in Held(topic) && packs
      ensures answer.Some? ==>
                topic in gs.groups && answer.value == (Held(topic)[myLabel].publisher, gs.groups[topic].checksum)
    {
      var authenticated := Request(Authenticate(j.name, transport.0, transport.1, j.publisher, "", ""), net);
      if !authenticated.value {
        return None;
      }
      var curntMembr := gs.Membr(topic, myLabel);
      if curntMembr.None? || !packs {
        return None;
      }
      answer := Some((curntMembr.value.publisher, gs.groups[topic].checksum));
    }

    method ConnectAndIndex(topic: string, j: Member, key: Key, net: Net) returns (done: Call<bool>)
      requires Valid()
      modifies subs, st, zmq
      ensures Valid()
      ensures var connect := ConnectTo(myLabel, topic, j);
              done == if DataPanics(gs.groups, connect, net.data)
                then Panicked else Returned(Passes(gs.groups, connect, net))
      ensures var connect := Connect(true, RoleSubscriber, myLabel, topic, j, "", "");
              st.filters == if connect in net.state.dials && connect in net.state.works &&
                               !(topic in gs.groups && |gs.groups[topic].members| >= 2)
                then old(st.filters) + multiset{StateTopic(topic)} else old(st.filters)
      ensures done == Returned(true) ==> Local(topic) == Subscribed(topic, old(Local(topic)), myLabel, j, key)
      ensures done == Returned(false) ==>
                Local(topic) ==
                  old(Local(topic)).(filters := ConnectFilters(gs.groups, ConnectTo(myLabel, topic, j), net.data,
                                                               old(zmq.filters)))
      ensures forall t :: t != topic ==> Stores(t) == old(Stores(t))
    {
      done := Subscription(topic, j, net);
      if done == Returned(true) {
        Index(topic, j.name, key);
      }
    }

    /** `sendConnect` to a member's publications. */
    method Subscription(topic: string, m: Member, net: Net) returns (done: Call<bool>)
      requires Valid()
      modifies st, zmq
      ensures Valid()
      ensures var connect := ConnectTo(myLabel, topic, m);
              done == if DataPanics(gs.groups, connect, net.data)
                then Panicked else Returned(Passes(gs.groups, connect, net))
      ensures var connect := Connect(true, RoleSubscriber, myLabel, topic, m, "", "");
              st.filters == if connect in net.state.dials && connect in net.state.works &&
                               !(topic in gs.groups && |gs.groups[topic].members| >= 2)
                then old(st.filters) + multiset{StateTopic(topic)} else old(st.filters)
      ensures done.Returned? ==>
                Local(topic) ==
                  old(Local(topic)).(filters := ConnectFilters(gs.groups, ConnectTo(myLabel, topic, m), net.data,
                                                               old(zmq.filters)))
      ensures done == Returned(true) ==>
                var a := old(Local(topic));
                Local(topic) ==
                  a.(filters := a.filters +
                       if HasMode(a) then ConnectFilter(Mode(a), topic, m, myLabel) else multiset{})
    {
      done := Request(ConnectTo(myLabel, topic, m), net);
      if done == Returned(true) {
        PassedConnect(gs.groups, myLabel, topic, m, net, old(zmq.filters));
      }
    }

    method Index(topic: string, l: string, key: Key)
      modifies subs
      ensures Local(topic) == old(Local(topic)).(subs := old(Local(topic)).subs[l := key])
      ensures forall t :: t != topic ==> Stores(t) == old(Stores(t))
    {
      subs.Add(topic, l, key);
      assert OfTopic(subs.subs, topic) == OfTopic(old(subs.subs), topic)[l := key];
    }

    lemma OtherTopics(before: map<string, map<string, Key>>, after: map<string, map<string, Key>>, topic: string)
      requires after.Keys == before.Keys && forall t :: t in after && t != topic ==> after[t] == before[t]
      ensures forall t :: t != topic ==> OfTopic(after, t) == OfTopic(before, t)
    {
    }

    /** A request to connect that passes has set the filter of a publisher. */
    lemma PassedConnect(groups: Groups, me: string, topic: string, m: Member, net: Net, filters: multiset<string>)
      requires Passes(groups, ConnectTo(me, topic, m), net) && !DataPanics(groups, ConnectTo(me, topic, m), net.data)
      ensures ConnectFilters(groups, ConnectTo(me, topic, m), net.data, filters) ==
                filters + if ModeKnown(groups, topic)
                  then ConnectFilter(groups[topic].params.value.mode, topic, m, me) else multiset{}
    {
    }

    /** `connectMember`: a joiner connects to a listed member. */
    method ConnectMember(topic: string, publisher: bool, m: Member, auth: Internal, p: Prober, net: Net)
      returns (done: Call<bool>)
      requires Valid() && ModeKnown(gs.groups, topic) && auth.Authenticate?
      modifies subs, st, zmq
      ensures Valid()
      ensures done == Connecting(gs.groups, topic, myLabel, publisher, m, auth, p, net)
      ensures done == Returned(true) && |gs.groups[topic].members| < 2 ==>
                st.filters == old(st.filters) + multiset{StateTopic(topic)}
      ensures done == Returned(true) ==>
                Local(topic) ==
                  Connected(topic, old(Local(topic)), myLabel, gs.groups[topic].params.value.mode, publisher, m,
                            KeyFor(p, m.name))
      ensures done != Returned(true) ==>
                Local(topic) == old(Local(topic)).(filters :=
                  if Passes(gs.groups, auth, net)
                    then ConnectFilters(gs.groups, ConnectTo(myLabel, topic, m), net.data, old(zmq.filters))
                  else old(zmq.filters))
      ensures forall t :: t != topic ==> Stores(t) == old(Stores(t))
    {
      done := Request(auth, net);
      if !done.value {
        return;
      }
      done := SubscribeAndIndex(topic, publisher, m, p, net);
      if done == Returned(true) {
        SubscribedOnce(gs.groups, topic, m, net);
      }
    }

    /** The rest, once the member has been authenticated. */
    method SubscribeAndIndex(topic: string, publisher: bool, m: Member, p: Prober, net: Net)
      returns (done: Call<bool>)
      requires Valid() && ModeKnown(gs.groups, topic)
      modifies subs, st, zmq
      ensures Valid()
      ensures done == if !Passes(gs.groups, ConnectTo(myLabel, topic, m), net) then Returned(false)
                      else if !publisher then Returned(true)
                      else if PeerKey(p, m.name).Panicked? then Panicked
                      else Returned(PeerKey(p, m.name).value.Some?)
      ensures var connect := Connect(true, RoleSubscriber, myLabel, topic, m, "", "");
              st.filters == if connect in net.state.dials && connect in net.state.works &&
                               !(topic in gs.groups && |gs.groups[topic].members| >= 2)
                then old(st.filters) + multiset{StateTopic(topic)} else old(st.filters)
      ensures done == Returned(true) ==>
                Local(topic) ==
                  Connected(topic, old(Local(topic)), myLabel, gs.groups[topic].params.value.mode, publisher, m,
                            KeyFor(p, m.name))
      ensures done != Returned(true) ==>
                Local(topic) ==
                  old(Local(topic)).(filters := ConnectFilters(gs.groups, ConnectTo(myLabel, topic, m), net.data,
                                                               old(zmq.filters)))
      ensures forall t :: t != topic ==> Stores(t) == old(Stores(t))
    {
      done := Subscription(topic, m, net);
      assert done == Returned(Passes(gs.groups, ConnectTo(myLabel, topic, m), net));
      if !done.value {
        return;
      }
      assert Local(topic) ==
             Connected(topic, old(Local(topic)), myLabel, gs.groups[topic].params.value.mode, false, m, []);
      if publisher {
        done := IndexPeer(topic, m.name, p);
      }
    }

    /** A request to connect that passes has subscribed to the statuses of a topic with fewer than two members. */
    lemma SubscribedOnce(groups: Groups, topic: string, m: Member, net: Net)
      requires topic in groups && Passes(groups, ConnectTo(myLabel, topic, m), net)
      ensures var connect := Connect(true, RoleSubscriber, myLabel, topic, m, "", "");
              connect in net.state.dials && (|groups[topic].members| < 2 ==> connect in net.state.works)
    {
    }

    /** Only a publisher looks up the peer's key and indexes it. */
    method IndexPeer(topic: string, l: string, p: Prober) returns (done: Call<bool>)
      modifies subs
      ensures var key := PeerKey(p, l);
              done == if key.Panicked? then Panicked else Returned(key.value.Some?)
      ensures Local(topic) ==
                if done == Returned(true)
                  then old(Local(topic)).(subs := old(Local(topic)).subs[l := KeyFor(p, l)]) else old(Local(topic))
      ensures forall t :: t != topic ==> Stores(t) == old(Stores(t))
    {
      var key := PeerKey(p, l);
      if key.Panicked? {
        return Panicked;
      }
      if key.value.None? {
        return Returned(false);
      }
      Index(topic, l, key.value.value);
      done := Returned(true);
    }

    /** `Join` after the acceptor has sent its parameters and its list and the members their answers.  An accepted
        joiner tells every listed member; one that fails later than the parameters leaves them behind, with the
        filters and index entries it has set. */
    method Join(topic: string, acceptor: string, gp: GroupParams, list: seq<Member>, answers: map<string, Response>,
                publisher: bool, inv: string, now: Syncer.int64, net: Net, out: Outbound)
      returns (result: Result, told: Option<Broadcast>)
      requires Valid() && out.p.name == myLabel
      modifies this, gs, subs, st, zmq, syncr
      ensures Valid()
      ensures result == AlreadyJoined <==> old(Local(topic)).group.Some?
      ensures result == InvalidMode <==> old(Local(topic)).group.None? && !gp.mode.Valid()
      ensures invs == if result == AlreadyJoined then old(invs) else old(invs)[topic := inv]
      ensures syncr.tsMap == if result != AlreadyJoined && result != InvalidMode && gp.orderEnabled
                             then old(syncr.tsMap)[topic := Syncer.Ts(syncr.id, now)] else old(syncr.tsMap)
      ensures result == AlreadyJoined || result == InvalidMode ==> Local(topic) == old(Local(topic))
      ensures result != AlreadyJoined && result != InvalidMode ==>
                JoinEnds(gs.h, topic, myLabel, acceptor, gp, list, answers, Status(topic, true, publisher), net, out,
                         old(gs.groups)[topic := EMPTY.(params := Some(gp))], old(Local(topic)), Local(topic), result)
      ensures result == Done || result == NotTold ==>
                Local(topic) ==
                  Joined(gs.h, topic, old(Local(topic)), gp, list, Status(topic, true, publisher), KeysOf(out.p))
      ensures told.Some? <==> result == Done
      ensures told.Some? ==> Tells(told.value, Status(topic, true, publisher), Held(topic), out) && Registered(topic)
      ensures told.Some? ==> told.value.member == Member(true, publisher, myLabel, inv, pubEndpoint)
      ensures result == AlreadyJoined || result == InvalidMode ==> st.filters == old(st.filters)
      ensures result == Done || result == NotTold || result == Inconsistent ==>
                forall t :: st.filters[t] ==
                  old(st.filters)[t] + if t == StateTopic(topic) then |ActiveOnly(list)| else 0
      ensures forall t :: t != topic ==> Stores(t) == old(Stores(t))
      ensures result != AlreadyJoined && result != InvalidMode ==>
                if forall m :: m in list && m.active ==>
                     var connect := Connect(true, RoleSubscriber, myLabel, topic, m, "", "");
                     (if m.name in answers then
                        var answer := answers[m.name];
                        var auth :=
                          Authenticate(m.name, answer.servrPubKey, answer.clientPubKey, answer.publisher, "", "");
                        auth in net.state.works && (answer.publisher ==> auth in net.data.works)
                      else Authenticate(m.name, "", "", false, "", "") in net.state.works) &&
                     connect in net.state.dials && connect in net.state.works &&
                     (m.publisher ==> connect in net.data.dials && connect in net.data.works) &&
                     (publisher ==> PeerKey(out.p, m.name).Returned? && PeerKey(out.p, m.name).value.Some?)
                then result != NotConnected else result == NotConnected || result == Panic
      ensures |list| > 1 && gp.joinConsistent && (result == Done || result == NotTold) ==>
                forall m :: m in list && m.active && m.name != acceptor ==>
                  m.name in answers && answers[m.name].checksum == Checksum(gs.h, list)
      ensures result == Inconsistent ==>
                |list| > 1 && gp.joinConsistent &&
                exists m :: m in list && m.active && m.name != acceptor &&
                            (m.name !in answers || answers[m.name].checksum != Checksum(gs.h, list))
    {
      result, told := JoinInOrder(topic, acceptor, gp, list, answers, publisher, inv, now, net, out);
      if result != AlreadyJoined && result != InvalidMode {
        JoinSpelledOut(gs.h, topic, myLabel, acceptor, gp, list, answers, Status(topic, true, publisher), net, out,
                       old(gs.groups)[topic := EMPTY.(params := Some(gp))], old(Local(topic)), Local(topic), result);
      }
    }

    /** The steps of a join. */
    method JoinInOrder(topic: string, acceptor: string, gp: GroupParams, list: seq<Member>,
                       answers: map<string, Response>, publisher: bool, inv: string, now: Syncer.int64, net: Net,
                       out: Outbound)
      returns (result: Result, told: Option<Broadcast>)
      requires Valid() && out.p.name == myLabel
      modifies this, gs, subs, st, zmq, syncr
      ensures Valid()
      ensures result == AlreadyJoined <==> old(Local(topic)).group.Some?
      ensures result == InvalidMode <==> old(Local(topic)).group.None? && !gp.mode.Valid()
      ensures invs == if result == AlreadyJoined then old(invs) else old(invs)[topic := inv]
      ensures syncr.tsMap == if result != AlreadyJoined && result != InvalidMode && gp.orderEnabled
                             then old(syncr.tsMap)[topic := Syncer.Ts(syncr.id, now)] else old(syncr.tsMap)
      ensures result == AlreadyJoined || result == InvalidMode ==> Local(topic) == old(Local(topic))
      ensures result != AlreadyJoined && result != InvalidMode ==>
                JoinEnds(gs.h, topic, myLabel, acceptor, gp, list, answers, Status(topic, true, publisher), net, out,
                         old(gs.groups)[topic := EMPTY.(params := Some(gp))], old(Local(topic)), Local(topic), result)
      ensures result == Done || result == NotTold ==>
                Local(topic) ==
                  Joined(gs.h, topic, old(Local(topic)), gp, list, Status(topic, true, publisher), KeysOf(out.p))
      ensures told.Some? <==> result == Done
      ensures told.Some? ==> Tells(told.value, Status(topic, true, publisher), Held(topic), out) && Registered(topic)
      ensures told.Some? ==> told.value.member == Member(true, publisher, myLabel, inv, pubEndpoint)
      ensures result == AlreadyJoined || result == InvalidMode ==> st.filters == old(st.filters)
      ensures result == Done || result == NotTold || result == Inconsistent ==>
                forall t :: st.filters[t] ==
                  old(st.filters)[t] + if t == StateTopic(topic) then |ActiveOnly(list)| else 0
      ensures forall t :: t != topic ==> Stores(t) == old(Stores(t))
    {
      told := None;
      if topic in gs.groups {
        return AlreadyJoined, None;
      }
      invs := invs[topic := inv];
      var ok := SetGroupParams(topic, gp);
      if !ok {
        return InvalidMode, None;
      }
      StartClock(topic, gp.orderEnabled, now);
      assert gs.groups == old(gs.groups)[topic := EMPTY.(params := Some(gp))];
      assert Local(topic) == old(Local(topic)).(group := Some(EMPTY.(params := Some(gp))));
      result, told := JoinMembers(topic, acceptor, gp, list, answers, publisher, net, out);
      JoinEndsWithParams(gs.h, topic, myLabel, acceptor, gp, list, answers, Status(topic, true, publisher), net, out,
                         old(gs.groups)[topic := EMPTY.(params := Some(gp))], old(Local(topic)), Local(topic), result);
    }

    /** The rest of a join, once the parameters are set. */
    method JoinMembers(topic: string, acceptor: string, gp: GroupParams, list: seq<Member>,
                       answers: map<string, Response>,
                       publisher: bool, net: Net, out: Outbound) returns (result: Result, told: Option<Broadcast>)
      requires Valid() && topic in gs.groups && gs.groups[topic] == EMPTY.(params := Some(gp)) && out.p.name == myLabel
      modifies gs, subs, st, zmq
      ensures Valid() && result != AlreadyJoined && result != InvalidMode
      ensures result == Done || result == NotTold || result == Inconsistent ==>
                forall t :: st.filters[t] ==
                  old(st.filters)[t] + if t == StateTopic(topic) then |ActiveOnly(list)| else 0
      ensures JoinEnds(gs.h, topic, myLabel, acceptor, gp, list, answers, Status(topic, true, publisher), net, out,
                       old(gs.groups), old(Local(topic)), Local(topic), result)
      ensures told.Some? <==> result == Done
      ensures told.Some? ==> Tells(told.value, Status(topic, true, publisher), Held(topic), out) && Registered(topic)
      ensures forall t :: t != topic ==> Stores(t) == old(Stores(t))
    {
      told := None;
      var connected := ConnectList(topic, gp, list, answers, publisher, net, out.p);
      assert gs.groups[topic] == EMPTY.(params := Some(gp));
      if connected.Panicked? {
        return Panic, None;
      }
      if !connected.value {
        ghost var a := old(Local(topic));
        assert a == a.(group := Some(EMPTY.(params := Some(gp))));
        return NotConnected, None;
      }
      result, told := CheckAndAnnounce(topic, acceptor, gp, list, answers, publisher, out);
    }

    /** The rest of a join, once the listed members are connected. */
    method CheckAndAnnounce(topic: string, acceptor: string, gp: GroupParams, list: seq<Member>,
                            answers: map<string, Response>,
                            publisher: bool, out: Outbound) returns (result: Result, told: Option<Broadcast>)
      requires Valid() && topic in gs.groups && gs.groups[topic] == EMPTY.(params := Some(gp)) && out.p.name == myLabel
      modifies gs
      ensures Valid()
      ensures var joined := old(Local(topic)).(group := Some(Entered(gp, list, Status(topic, true, publisher))));
              if gp.joinConsistent && !JoinCheck.Consistent(gs.h, acceptor, list, Checksums(answers))
              then result == Inconsistent && Local(topic) == old(Local(topic))
              else
                Local(topic) == joined && (result == Done <==> OthersSealable(out.p, Members(joined)) && out.tells) &&
                (result == Done || result == NotTold || (result == Panic && !OthersSealable(out.p, Members(joined))))
      ensures told.Some? <==> result == Done
      ensures told.Some? ==> Tells(told.value, Status(topic, true, publisher), Held(topic), out) && Registered(topic)
      ensures forall t :: t != topic ==> Stores(t) == old(Stores(t))
    {
      var proceed, valid := JoinCheck.CheckJoin(gs.h, acceptor, list, Checksums(answers), gp.joinConsistent);
      if !proceed {
        return Inconsistent, None;
      }
      result, told := PopulateAndAnnounce(topic, gp, list, publisher, out);
    }

    /** The joiner enters the list and itself, and tells the others. */
    method PopulateAndAnnounce(topic: string, gp: GroupParams, list: seq<Member>, publisher: bool, out: Outbound)
      returns (result: Result, told: Option<Broadcast>)
      requires Valid() && topic in gs.groups && gs.groups[topic] == EMPTY.(params := Some(gp)) && out.p.name == myLabel
      modifies gs
      ensures Valid()
      ensures Local(topic) ==
                old(Local(topic)).(group := Some(Entered(gp, list, Status(topic, true, publisher))))
      ensures result == Done <==> OthersSealable(out.p, Held(topic)) && out.tells
      ensures result == Done || result == NotTold || (result == Panic && !OthersSealable(out.p, Held(topic)))
      ensures told.Some? <==> result == Done
      ensures told.Some? ==> Tells(told.value, Status(topic, true, publisher), Held(topic), out) && Registered(topic)
      ensures forall t :: t != topic ==> Stores(t) == old(Stores(t))
    {
      PopulateNew(topic, gp, list + [Status(topic, true, publisher)]);
      JoinerIsLast(list, Status(topic, true, publisher));
      result, told := Announce(topic, publisher, out);
    }

    method Announce(topic: string, publisher: bool, out: Outbound) returns (result: Result, told: Option<Broadcast>)
      requires Valid() && out.p.name == myLabel
      ensures told.Some? <==> result == Done
      ensures told.Some? ==> Tells(told.value, Status(topic, true, publisher), Held(topic), out)
      ensures result == Done <==> OthersSealable(out.p, Held(topic)) && out.tells
      ensures result == Done || result == NotTold || (result == Panic && !OthersSealable(out.p, Held(topic)))
    {
      var broadcast := Notify(topic, true, publisher, out);
      if broadcast.Panicked? {
        return Panic, None;
      }
      told := broadcast.value;
      result := if told.Some? then Done else NotTold;
    }

    /** The group with the list and the joiner. */
    ghost function Entered(gp: GroupParams, list: seq<Member>, joiner: Member): Group {
      Populated(gs.h, Agent(None, map[], multiset{}), gp, list + [joiner])
    }

    method SetGroupParams(topic: string, gp: GroupParams) returns (ok: bool)
      requires Valid() && topic !in gs.groups
      modifies gs
      ensures Valid() && ok == gp.mode.Valid()
      ensures gs.groups == if ok then old(gs.groups)[topic := EMPTY.(params := Some(gp))] else old(gs.groups)
      ensures forall t :: t != topic ==> Stores(t) == old(Stores(t))
    {
      ok := gs.SetParams(topic, gp);
    }

    method PopulateNew(topic: string, gp: GroupParams, mems: seq<Member>)
      requires Valid() && topic in gs.groups && gs.groups[topic] == EMPTY.(params := Some(gp)) && mems != []
      modifies gs
      ensures Valid()
      ensures Local(topic) ==
              old(Local(topic)).(group := Some(Populated(gs.h, Agent(None, map[], multiset{}), gp, mems)))
      ensures forall t :: t != topic ==> Stores(t) == old(Stores(t))
    {
      var done := gs.AddMembrs(topic, mems);
    }

    /** The loop over the active listed members, up to the first that cannot be connected to. */
    method ConnectList(topic: string, gp: GroupParams, list: seq<Member>, answers: map<string, Response>,
                       publisher: bool, net: Net, p: Prober)
      returns (done: Call<bool>)
      requires Valid() && topic in gs.groups && gs.groups[topic].params == Some(gp)
      modifies subs, st, zmq
      ensures Valid()
      ensures done == Returned(true) <==> AllConnect(gs.groups, topic, myLabel, publisher, list, answers, p, net)
      ensures done == Returned(true) ==>
                Local(topic) == ConnectedAll(topic, old(Local(topic)), myLabel, gp.mode, publisher, list, KeysOf(p))
      ensures done == Returned(false) ==>
                exists k :: StoppedAt(gs.groups, topic, myLabel, publisher, gp.mode, list, k, answers, p, net,
                                      old(Local(topic)), Local(topic))
      ensures done == Returned(true) && Held(topic) == map[] ==>
                MoreFilters(old(st.filters), st.filters, StateTopic(topic), |ActiveOnly(list)|)
      ensures forall t :: t != topic ==> Stores(t) == old(Stores(t))
    {
      for i := 0 to |list|
        invariant Valid() && Local(topic).group == old(Local(topic)).group
        invariant AllConnect(gs.groups, topic, myLabel, publisher, list[..i], answers, p, net)
        invariant Local(topic) ==
                  ConnectedAll(topic, old(Local(topic)), myLabel, gp.mode, publisher, list[..i], KeysOf(p))
        invariant Held(topic) == map[] ==>
                    MoreFilters(old(st.filters), st.filters, StateTopic(topic), |ActiveOnly(list[..i])|)
        invariant forall t :: t != topic ==> Stores(t) == old(Stores(t))
      {
        done := ConnectNext(topic, gp, list, i, answers, publisher, net, p, old(Local(topic)), old(st.filters));
        if done != Returned(true) {
          return;
        }
      }
      assert list[..|list|] == list;
      done := Returned(true);
    }

    /** One round: an inactive entry is skipped. */
    method ConnectNext(topic: string, gp: GroupParams, list: seq<Member>, i: nat, answers: map<string, Response>,
                       publisher: bool, net: Net, p: Prober, ghost start: Agent, ghost filters: multiset<string>)
      returns (done: Call<bool>)
      requires Valid() && topic in gs.groups && gs.groups[topic].params == Some(gp) && i < |list|
      requires AllConnect(gs.groups, topic, myLabel, publisher, list[..i], answers, p, net)
      requires Local(topic) == ConnectedAll(topic, start, myLabel, gp.mode, publisher, list[..i], KeysOf(p))
      requires Held(topic) == map[] ==>
                 MoreFilters(filters, st.filters, StateTopic(topic), |ActiveOnly(list[..i])|)
      modifies subs, st, zmq
      ensures Valid() && Local(topic).group == old(Local(topic)).group
      ensures done == Returned(true) ==>
                AllConnect(gs.groups, topic, myLabel, publisher, list[..i + 1], answers, p, net) &&
                Local(topic) == ConnectedAll(topic, start, myLabel, gp.mode, publisher, list[..i + 1], KeysOf(p))
      ensures done == Returned(true) && Held(topic) == map[] ==>
                MoreFilters(filters, st.filters, StateTopic(topic), |ActiveOnly(list[..i + 1])|)
      ensures done != Returned(true) ==> !AllConnect(gs.groups, topic, myLabel, publisher, list, answers, p, net)
      ensures done == Returned(false) ==>
                StoppedAt(gs.groups, topic, myLabel, publisher, gp.mode, list, i, answers, p, net, start, Local(topic))
      ensures forall t :: t != topic ==> Stores(t) == old(Stores(t))
    {
      assert list[..i + 1][..i] == list[..i];
      ConnectStep(gs.groups, topic, myLabel, publisher, list, answers, p, net, i);
      if Held(topic) == map[] {
        OneMoreFilter(filters, st.filters, StateTopic(topic), list, i);
      }
      done := Returned(true);
      if list[i].active {
        done := ConnectMember(topic, publisher, list[i], AuthOf(answers, list[i].name), p, net);
      }
    }

    /** `notifyAll`: one record, sealed for every other member of the group. */
    method Notify(topic: string, active: bool, publisher: bool, out: Outbound) returns (told: Call<Option<Broadcast>>)
      requires Valid() && out.p.name == myLabel
      ensures told.Returned? && told.value.Some? ==>
                Tells(told.value.value, Status(topic, active, publisher), Held(topic), out)
      ensures told.Returned? && told.value.Some? ==>
                told.value.value.member ==
                  Member(active, publisher, myLabel, if topic in invs then invs[topic] else "", pubEndpoint)
      ensures told.Returned? && told.value.Some? ==>
                var authMsgs, status := told.value.value.authMsgs, out.marshal(told.value.value.member);
                (forall l :: l in Held(topic) && l != myLabel ==>
                   l in out.p.peers && out.p.peers[l].exchId in authMsgs) &&
                forall e :: e in authMsgs ==>
                  exists l ::
                    l in Held(topic) && l != myLabel && CanSeal(out.p, l) && out.p.peers[l].exchId == e &&
                    authMsgs[e] == StatusFor(out.c, out.p, l, status, out.rnd(l))
      ensures told.Returned? && told.value.Some? <==> OthersSealable(out.p, Held(topic)) && out.tells
      ensures told.Panicked? ==> !OthersSealable(out.p, Held(topic))
    {
      var membrs := ListMembers(topic);
      var m := Status(topic, active, publisher);
      SealableListing(out.p, membrs, Held(topic));
      var authMsgs := CompressStatus(out.c, out.p, membrs, out.marshal(m), out.rnd);
      if authMsgs.Panicked? {
        return Panicked;
      }
      if authMsgs.value.None? || !out.tells {
        return Returned(None);
      }
      CopiesOf(out, membrs, Held(topic), out.marshal(m), authMsgs.value.value);
      told := Returned(Some(Broadcast(m, authMsgs.value.value)));
    }

    method ListMembers(topic: string) returns (membrs: seq<Member>)
      requires Valid()
      ensures Keyed(Held(topic)) && Lists(membrs, Held(topic))
      ensures membrs == [] <==> Held(topic) == map[]
    {
      membrs := gs.Membrs(topic);
      ListingEmpty(membrs, Held(topic));
    }

    /** `state`: a member's status, once read; `removesKeys` tells whether dropping the member's transport keys works.
        On a topic that is not stored an active status makes an entry without parameters. */
    method OnStatus(topic: string, m: Member, net: Net, removesKeys: bool) returns (done: Call<bool>)
      requires Valid()
      modifies gs, subs, st, zmq
      ensures Valid()
      ensures done == if m.active then Returned(true) else Removing(old(gs.groups), topic, myLabel, m, net, removesKeys)
      ensures m.active || Removable(old(gs.groups), topic, myLabel, m, net) ==>
                Local(topic) == StatusApplied(gs.h, topic, old(Local(topic)), myLabel, m)
      ensures !m.active && !Removable(old(gs.groups), topic, myLabel, m, net) ==> Stores(topic) == old(Stores(topic))
      ensures old(Registered(topic)) && m.name != myLabel ==> Registered(topic)
      ensures forall t :: t != topic ==> Stores(t) == old(Stores(t))
      ensures st.filters == old(st.filters)
      ensures m.active ==>
                Held(topic) == old(Held(topic))[m.name := m] && zmq.filters == old(zmq.filters) &&
                Local(topic).subs == old(Local(topic)).subs
      ensures var gone := m.name in net.state.hangsUp &&
                          (m.publisher ==>
                           topic in old(gs.groups) && old(gs.groups)[topic].params.Some? &&
                           m.name in net.data.unsubscribes && m.name in net.data.hangsUp);
              !m.active ==>
                (gone ==> Held(topic) == old(Held(topic)) - {m.name} &&
                          Local(topic).subs == old(Local(topic)).subs - {m.name}) &&
                (done == Returned(true) <==>
                 gone && removesKeys && (topic in old(gs.groups) ==> !(old(Held(topic)).Keys <= {m.name})))
    {
      if !m.active {
        done := RemoveMember(topic, m, net, removesKeys);
        return;
      }
      AddActive(topic, m);
      done := Returned(true);
    }

    method AddActive(topic: string, m: Member)
      requires Valid() && m.active
      modifies gs
      ensures Valid()
      ensures Local(topic) == StatusApplied(gs.h, topic, old(Local(topic)), myLabel, m)
      ensures Held(topic) == old(Held(topic))[m.name := m]
      ensures forall t :: t != topic ==> Stores(t) == old(Stores(t))
    {
      MergedOne(Existing(gs.groups, topic).members, m);
      var added := gs.AddMembrs(topic, [m]);
    }

    /** `removeMember`. */
    method RemoveMember(topic: string, m: Member, net: Net, removesKeys: bool) returns (done: Call<bool>)
      requires Valid() && !m.active
      modifies gs, subs, st, zmq
      ensures Valid()
      ensures done == Removing(old(gs.groups), topic, myLabel, m, net, removesKeys)
      ensures Removable(old(gs.groups), topic, myLabel, m, net) ==>
                Local(topic) == StatusApplied(gs.h, topic, old(Local(topic)), myLabel, m)
      ensures !Removable(old(gs.groups), topic, myLabel, m, net) ==> Stores(topic) == old(Stores(topic))
      ensures forall t :: t != topic ==> Stores(t) == old(Stores(t))
      ensures st.filters == old(st.filters)
      ensures var gone := m.name in net.state.hangsUp &&
                          (m.publisher ==>
                           topic in old(gs.groups) && old(gs.groups)[topic].params.Some? &&
                           m.name in net.data.unsubscribes && m.name in net.data.hangsUp);
              (gone ==>
                 Held(topic) == old(Held(topic)) - {m.name} &&
                 Local(topic).subs == old(Local(topic)).subs - {m.name} &&
                 zmq.filters == old(zmq.filters) -
                   if m.publisher
                     then multiset{DataTopic(old(gs.groups)[topic].params.value.mode, topic, m.name, myLabel)}
                   else multiset{}) &&
              (done == Returned(true) <==>
               gone && removesKeys && (topic in old(gs.groups) ==> !(old(Held(topic)).Keys <= {m.name})))
    {
      ghost var groups, a := gs.groups, Local(topic);
      done := RemoveFilter(topic, m, net);
      if done == Returned(true) {
        var deleted := DropMember(topic, m.name);
        done := if deleted.Panicked? then Panicked else Returned(removesKeys);
      }
      RemovalSpelledOut(gs.h, groups, topic, myLabel, m, net, removesKeys, a, Local(topic));
    }

    /** Disconnecting does not touch the filters; a departed publisher's filter is removed. */
    method RemoveFilter(topic: string, m: Member, net: Net) returns (done: Call<bool>)
      requires Valid()
      modifies st, zmq
      ensures Valid() && st.filters == old(st.filters)
      ensures done == if Removable(gs.groups, topic, myLabel, m, net) then Returned(true)
                      else if Passes(gs.groups, DisconnectFrom(m), net) && m.publisher && !ModeKnown(gs.groups, topic)
                        then Panicked
                      else Returned(false)
      ensures done == Returned(true) ==>
                zmq.filters ==
                  old(zmq.filters) - if ModeKnown(gs.groups, topic)
                    then ConnectFilter(gs.groups[topic].params.value.mode, topic, m, myLabel) else multiset{}
    {
      done := Request(DisconnectFrom(m), net);
      if done == Returned(true) && m.publisher {
        done := Request(UnsubscribeFrom(myLabel, topic, m), net);
      }
    }

    method DropMember(topic: string, membr: string) returns (done: Call<()>)
      requires Valid()
      modifies gs, subs
      ensures Valid() && done.Panicked? == (topic in old(gs.groups) && old(gs.groups)[topic].members.Keys <= {membr})
      ensures var a := old(Local(topic));
              Local(topic).filters == a.filters && Local(topic).subs == a.subs - {membr} &&
              Local(topic).group ==
                if a.group.None? then None else Some(WithMembers(gs.h, a.group.value, a.group.value.members - {membr}))
      ensures forall t :: t != topic ==> Stores(t) == old(Stores(t))
    {
      subs.Delete(topic, membr);
      OtherTopics(old(subs.subs), subs.subs, topic);
      done := gs.DeleteMembr(topic, membr);
    }

    /** `Send`: only a registered publisher sends, once to every subscriber of its index; the topic's clock advances
        even if publishing fails. */
    method Send(topic: string, msg: seq<byte>, now: Syncer.int64, out: Outbound, publishes: iset<string>)
      returns (result: Result, frames: seq<string>, ghost order: seq<string>)
      requires Valid() && out.p.name == myLabel
      modifies syncr
      ensures result == NotMember <==> myLabel !in Held(topic)
      ensures result == NotPublisher <==> myLabel in Held(topic) && !Held(topic)[myLabel].publisher
      ensures result == NotRegistered <==> Sends(topic) && topic !in subs.subs
      ensures syncr.tsMap == if Sends(topic) && topic in subs.subs && topic in old(syncr.tsMap)
                             then old(syncr.tsMap)[topic := Syncer.Advance(old(syncr.tsMap)[topic], now)]
                               else old(syncr.tsMap)
      ensures Sends(topic) && topic in subs.subs ==>
                SendEnds(SenderOf(topic, now, out, old(syncr.tsMap)), Local(topic), msg, publishes, result, frames,
                         order)
    {
      frames, order := [], [];
      var curntMembr := gs.Membr(topic, myLabel);
      if curntMembr.None? {
        return NotMember, frames, order;
      }
      if !curntMembr.value.publisher {
        return NotPublisher, frames, order;
      }
      var found := subs.QueryByTopic(topic);
      if found.None? {
        return NotRegistered, frames, order;
      }
      result, frames, order := SendTo(topic, found.value, msg, now, out, publishes);
    }

    /** The message gets its timestamp and is published to the subscribers. */
    method SendTo(topic: string, index: map<string, Key>, msg: seq<byte>, now: Syncer.int64, out: Outbound,
                  publishes: iset<string>)
      returns (result: Result, frames: seq<string>, ghost order: seq<string>)
      requires topic in gs.groups && Local(topic).subs == index
      modifies syncr
      ensures syncr.tsMap ==
              if topic in old(syncr.tsMap) then old(syncr.tsMap)[topic := Syncer.Advance(old(syncr.tsMap)[topic], now)]
                             else old(syncr.tsMap)
      ensures SendEnds(SenderOf(topic, now, out, old(syncr.tsMap)), Local(topic), msg, publishes, result, frames, order)
    {
      var s := SenderOf(topic, now, out, syncr.tsMap);
      var syncdMsg := syncr.Message(topic, msg, now);
      var params := gs.groups[topic].params;
      var mode := if params.Some? then Some(params.value.mode) else None;
      var done;
      frames, order, done := PublishAll(s, mode, index, msg, syncdMsg, publishes);
      result := if done.Panicked? then Panic else if done.value then Done else NotPublished;
      PublishedEnds(s, Local(topic), mode, msg, publishes, done, frames, order);
    }

    /** The agent is a member that publishes. */
    ghost predicate Sends(topic: string)
      reads gs
    {
      myLabel in Held(topic) && Held(topic)[myLabel].publisher
    }

    function SenderOf(topic: string, now: Syncer.int64, out: Outbound, tsMap: map<string, Syncer.Ts>): Sender {
      Sender(out.c, syncr.codec, out.p, topic, ClockOf(tsMap, topic), now, out.rnd)
    }

    /** `Leave`: fails on a topic without members; otherwise the other members are told, and the topic is dropped. */
    method Leave(topic: string, net: Net, out: Outbound) returns (result: Result, told: Option<Broadcast>)
      requires Valid() && out.p.name == myLabel
      modifies gs, subs, st, zmq
      ensures Valid()
      ensures LeaveEnds(old(gs.groups), topic, myLabel, net, out, result)
      ensures Local(topic) ==
              if result == Done
                then Left(topic, old(Local(topic)), myLabel) else old(Local(topic)).(filters := zmq.filters)
      ensures LeaveFilters(old(gs.groups), topic, myLabel, net, old(Local(topic)), zmq.filters, result)
      ensures told.Some? <==> result == Done
      ensures told.Some? ==> TellsLeaving(told.value, topic, old(Held(topic)), out)
      ensures told.Some? ==>
                told.value.member ==
                  Member(false, myLabel in old(Held(topic)) && old(Held(topic))[myLabel].publisher, myLabel,
                         if topic in invs then invs[topic] else "", pubEndpoint)
      ensures forall t :: t != topic ==> Stores(t) == old(Stores(t))
      ensures var msg := Subscribe(false, true, myLabel, topic, true, true, Member(false, false, "", "", ""), "", "");
              st.filters ==
                if msg in net.state.works then old(st.filters) - multiset{StateTopic(topic)} else old(st.filters)
      ensures var msg := Subscribe(false, true, myLabel, topic, true, true, Member(false, false, "", "", ""), "", "");
              var members := old(Held(topic));
              if topic in old(gs.groups) && old(gs.groups)[topic].params.None? &&
                 exists l :: l in members && l != myLabel && members[l].publisher
              then result == Panic
              else result != NotUnsubscribed <==>
                     msg in net.state.works &&
                     forall l :: l in members && l != myLabel ==>
                       l in net.state.hangsUp &&
                       (members[l].publisher ==> l in net.data.unsubscribes && l in net.data.hangsUp)
    {
      result, told := UnsubscribeAndTell(topic, net, out);
      LeaveSpelledOut(old(gs.groups), topic, old(Held(topic)), myLabel, net, out, result);
    }

    /** The steps of a leave. */
    method UnsubscribeAndTell(topic: string, net: Net, out: Outbound)
      returns (result: Result, told: Option<Broadcast>)
      requires Valid() && out.p.name == myLabel
      modifies gs, subs, st, zmq
      ensures Valid()
      ensures LeaveEnds(old(gs.groups), topic, myLabel, net, out, result)
      ensures Local(topic) ==
              if result == Done
                then Left(topic, old(Local(topic)), myLabel) else old(Local(topic)).(filters := zmq.filters)
      ensures LeaveFilters(old(gs.groups), topic, myLabel, net, old(Local(topic)), zmq.filters, result)
      ensures told.Some? <==> result == Done
      ensures told.Some? ==> TellsLeaving(told.value, topic, old(Held(topic)), out)
      ensures forall t :: t != topic ==> Stores(t) == old(Stores(t))
      ensures var msg := Subscribe(false, true, myLabel, topic, true, true, Member(false, false, "", "", ""), "", "");
              st.filters ==
                if msg in net.state.works then old(st.filters) - multiset{StateTopic(topic)} else old(st.filters)
    {
      told := None;
      var unsubscribed := UnsubscribeAll(topic, net);
      if unsubscribed.Panicked? {
        return Panic, None;
      }
      if !unsubscribed.value {
        return NotUnsubscribed, None;
      }
      assert forall t :: Stores(t) == old(Stores(t));
      result, told := LeaveMembers(topic, out);
    }

    /** The rest of a leave, once the filters are gone. */
    method LeaveMembers(topic: string, out: Outbound) returns (result: Result, told: Option<Broadcast>)
      requires Valid() && out.p.name == myLabel
      modifies gs, subs
      ensures Valid()
      ensures var members := old(Held(topic));
              if members == map[] then result == NoMembers
              else if OthersSealable(out.p, members) then result == (if out.tells then Done else NotTold)
              else result == NotTold || result == Panic
      ensures Local(topic) ==
              if result == Done then Agent(None, map[], old(Local(topic)).filters) else old(Local(topic))
      ensures told.Some? <==> result == Done
      ensures told.Some? ==> TellsLeaving(told.value, topic, old(Held(topic)), out)
      ensures forall t :: t != topic ==> Stores(t) == old(Stores(t))
    {
      var membrs := ListMembers(topic);
      if |membrs| == 0 {
        return NoMembers, None;
      }
      result, told := TellAndDrop(topic, membrs, out);
    }

    /** The other members are told, and if that works the topic is dropped. */
    method TellAndDrop(topic: string, membrs: seq<Member>, out: Outbound)
      returns (result: Result, told: Option<Broadcast>)
      requires Valid() && out.p.name == myLabel
      requires Keyed(Held(topic)) && Lists(membrs, Held(topic))
      modifies gs, subs
      ensures Valid()
      ensures if OthersSealable(out.p, old(Held(topic))) then result == (if out.tells then Done else NotTold)
              else result == NotTold || result == Panic
      ensures Local(topic) ==
              if result == Done then Agent(None, map[], old(Local(topic)).filters) else old(Local(topic))
      ensures told.Some? <==> result == Done
      ensures told.Some? ==> TellsLeaving(told.value, topic, old(Held(topic)), out)
      ensures forall t :: t != topic ==> Stores(t) == old(Stores(t))
    {
      var publisher := PublisherFlag(membrs, Held(topic));
      var broadcast := Notify(topic, false, publisher, out);
      if broadcast.Panicked? {
        return Panic, None;
      }
      if broadcast.value.None? {
        return NotTold, None;
      }
      told := broadcast.value;
      Drop(topic);
      result := Done;
    }

    method UnsubscribeAll(topic: string, net: Net) returns (done: Call<bool>)
      requires Valid()
      modifies st, zmq
      ensures Valid()
      ensures var msg := Subscribe(false, true, myLabel, topic, true, true, Member(false, false, "", "", ""), "", "");
              st.filters ==
                if msg in net.state.works then old(st.filters) - multiset{StateTopic(topic)} else old(st.filters)
      ensures done == Unsubscribing(gs.groups, topic, myLabel, net)
      ensures done == Returned(false) ==>
                DataEffect(gs.groups, UnsubscribeAllOf(myLabel, topic), net.data, old(zmq.filters), zmq.filters)
      ensures done == Returned(true) ==> zmq.filters == Left(topic, old(Local(topic)), myLabel).filters
      ensures done == Returned(true) && Held(topic) == map[] ==> zmq.filters == old(zmq.filters)
    {
      done := Request(UnsubscribeAllOf(myLabel, topic), net);
      if ModeKnown(gs.groups, topic) {
        LeaveNothing(gs.groups[topic].params.value.mode, topic, gs.groups[topic].members, myLabel, old(zmq.filters));
      }
    }

    method Drop(topic: string)
      requires Valid()
      modifies gs, subs
      ensures Valid()
      ensures Local(topic) == Agent(None, map[], old(Local(topic)).filters)
      ensures forall t :: t != topic ==> Stores(t) == old(Stores(t))
    {
      subs.DeleteTopic(topic);
      gs.DeleteTopic(topic);
    }

    lemma LeaveNothing(mode: GroupMode, topic: string, members: map<string, Member>, me: string,
                       filters: multiset<string>)
      requires Keyed(members)
      ensures members == map[] ==> filters - PeerFilters(mode, topic, members, me) == filters
    {
      if members == map[] {
        NoPeersNoFilters(mode, topic, members, me);
      }
    }

    /** Looks for the agent's own record. */
    method PublisherFlag(membrs: seq<Member>, ghost members: map<string, Member>) returns (publisher: bool)
      requires Keyed(members) && Lists(membrs, members)
      ensures publisher == (myLabel in members && members[myLabel].publisher)
    {
      publisher := false;
      var i := 0;
      while i < |membrs|
        invariant 0 <= i <= |membrs| && !publisher
        invariant forall k :: 0 <= k < i ==> membrs[k].name != myLabel
      {
        assert membrs[i] in membrs;
        if membrs[i].name == myLabel {
          publisher := membrs[i].publisher;
          return;
        }
        i := i + 1;
      }
      if myLabel in members {
        ListedByLabel(membrs, members, myLabel);
      }
    }

    lemma ListedByLabel(membrs: seq<Member>, members: map<string, Member>, l: string)
      requires Lists(membrs, members) && Keyed(members) && l in members
      ensures exists k :: 0 <= k < |membrs| && membrs[k].name == l
    {
      assert members[l] in membrs;
    }
  }
}
