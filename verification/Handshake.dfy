/** One DID exchange between a requester `a`, who accepts an invitation, and its inviter `b`, as a step machine
    in which sending a message and storing the peer are separate steps, so that a response may arrive before
    the requester has stored the peer it belongs to. */
module Handshake {
  import opened Base64
  import opened Envelope
  import opened Keys
  import opened DidDoc
  import opened Prober

  /** The fixed data of the exchange: the agents before it, the exchange id, and what either side generates. */
  datatype Exchange = Exchange(c: Setup, a0: Prober, b0: Prober, thId: string,
                               keyA: KeyPair, idsA: (string, string), rndA: Random,
                               keyB: KeyPair, idsB: (string, string), rndB: Random)

  /** Both labels are non-empty and different, neither side knows the other yet, the exchange id and the keys
      are fresh, and the invitation carries `b`'s invitation key. */
  ghost predicate Fresh(x: Exchange) {
    LawfulSetup(x.c) && x.a0.name != "" && x.b0.name != "" && x.a0.name != x.b0.name &&
    ValidPair(x.c, x.keyA) && ValidPair(x.c, x.keyB) && ValidPair(x.c, x.b0.inv) &&
    x.b0.name !in x.a0.peers && x.a0.name !in x.b0.peers &&
    (forall l :: l in x.a0.peers ==> x.a0.peers[l].exchId != x.thId) &&
    (forall l :: l in x.b0.peers ==> x.b0.peers[l].exchId != x.thId) &&
    DistinctKeys(x.a0.keys) && (forall l :: l in x.a0.keys ==> x.a0.keys[l].pub != x.keyA.pub) &&
    DistinctKeys(x.b0.keys) && (forall l :: l in x.b0.keys ==> x.b0.keys[l].pub != x.keyB.pub)
  }

  datatype APhase = Unsent | Sent | Stored

  /** The requester's response handler: no response yet, `made` lookups without success, or finished. */
  datatype ResPhase = NoResponse | Looking(made: nat) | Completed | GaveUp | Broken

  datatype BPhase = Waiting | Responded(svcs: seq<Service>) | Answered | Refused

  datatype World = World(a: Prober, b: Prober, aPhase: APhase, resPhase: ResPhase, bPhase: BPhase,
                         req: Option<ConnReq>, res: Option<ConnRes>)

  datatype Step =
    | SendRequest   // Accept, lines 138-173
    | StorePeer     // Accept, line 177
    | SendResponse  // processConnReq, lines 183-232
    | StoreAnswer   // processConnReq, line 236
    | Lookup        // one round of the retry loop of processConnRes

  ghost predicate Init(x: Exchange, w: World) {
    w == World(x.a0, x.b0, Unsent, NoResponse, Waiting, None, None)
  }

  ghost predicate Enabled(w: World, step: Step) {
    match step
    case SendRequest => w.aPhase.Unsent?
    case StorePeer => w.aPhase.Sent? && w.req.Some?
    case SendResponse => w.req.Some? && w.bPhase.Waiting?
    case StoreAnswer => w.bPhase.Responded? && w.req.Some?
    case Lookup => w.res.Some? && w.resPhase.Looking?
  }

  ghost function Next(x: Exchange, w: World, step: Step): World
    requires Enabled(w, step)
  {
    match step
    case SendRequest =>
      w.(a := WithPrereqs(w.a, x.b0.name, x.keyA, x.idsA), aPhase := Sent,
         req := Some(RequestFor(x.c, w.a, x.b0.name, x.b0.inv.pub, x.keyA, x.idsA, x.thId, x.rndA)))
    case StorePeer =>
      w.(a := Remember(w.a, x.b0.name, Peer("", w.req.value.thId, [])), aPhase := Stored)
    case SendResponse =>
      var answer := Answer(x.c, w.b, w.req.value, x.keyB, x.idsB, x.rndB);
      if answer.None? then w.(bPhase := Refused)
      else w.(b := answer.value.0, bPhase := Responded(answer.value.2), res := Some(answer.value.1),
              resPhase := Looking(0))
    case StoreAnswer =>
      w.(b := Remember(w.b, w.req.value.name, Peer(w.req.value.did, w.req.value.thId, w.bPhase.svcs)),
         bPhase := Answered)
    case Lookup =>
      var name := ByExchId(w.a.peers, w.res.value.thId);
      if name.Some? then
        var done := Complete(x.c, w.a, w.res.value, name.value);
        if done.None? then w.(resPhase := Broken) else w.(a := done.value, resPhase := Completed)
      else if w.resPhase.made == RETRY_COUNT then w.(resPhase := GaveUp)
      else w.(resPhase := Looking(w.resPhase.made + 1))
  }

  ghost predicate Run(x: Exchange, worlds: seq<World>, steps: seq<Step>) {
    |worlds| == |steps| + 1 && Init(x, worlds[0]) &&
    forall i :: 0 <= i < |steps| ==> Enabled(worlds[i], steps[i]) && worlds[i + 1] == Next(x, worlds[i], steps[i])
  }

  // ------------------------------------------------------------------------- the shape of every state

  function ServicesA(x: Exchange): seq<Service> { OwnServices(x.a0, x.keyA, x.idsA) }

  function ServicesB(x: Exchange): seq<Service> { OwnServices(x.b0, x.keyB, x.idsB) }

  function RequestOf(x: Exchange): ConnReq {
    RequestFor(x.c, x.a0, x.b0.name, x.b0.inv.pub, x.keyA, x.idsA, x.thId, x.rndA)
  }

  function ResponseOf(x: Exchange): ConnRes {
    ConnRes(x.thId, SealedDoc(x.c, DocumentOf(ServicesB(x)), x.keyA.pub, x.keyB, x.rndB))
  }

  /** The requester's state, by phase. */
  function ShapeA(x: Exchange, aPhase: APhase, completed: bool): Prober {
    if aPhase.Unsent? then x.a0
    else
      var prepared := WithPrereqs(x.a0, x.b0.name, x.keyA, x.idsA);
      if aPhase.Sent? then prepared
      else Remember(prepared, x.b0.name, Peer("", x.thId, if completed then ServicesB(x) else []))
  }

  /** The inviter's state, by phase. */
  function ShapeB(x: Exchange, bPhase: BPhase): Prober {
    if bPhase.Waiting? then x.b0
    else
      var prepared := WithPrereqs(x.b0, x.a0.name, x.keyB, x.idsB);
      if bPhase.Answered? then Remember(prepared, x.a0.name, Peer(RequestOf(x).did, x.thId, ServicesA(x))) else prepared
  }

  ghost predicate Inv(x: Exchange, w: World) {
    w.a == ShapeA(x, w.aPhase, w.resPhase.Completed?) && w.b == ShapeB(x, w.bPhase) &&
    w.req == (if w.aPhase.Unsent? then None else Some(RequestOf(x))) &&
    w.res == (if w.bPhase.Waiting? then None else Some(ResponseOf(x))) &&
    !w.bPhase.Refused? && !w.resPhase.Broken? &&
    (w.bPhase.Responded? ==> w.bPhase.svcs == ServicesA(x)) &&
    (!w.bPhase.Waiting? ==> !w.aPhase.Unsent?) &&
    (w.resPhase.NoResponse? <==> w.bPhase.Waiting?) &&
    (w.resPhase.Completed? ==> w.aPhase.Stored?) &&
    (w.resPhase.Looking? ==> w.resPhase.made <= RETRY_COUNT)
  }

  /** The inviter reads the requester's services from the request and answers with its own, sealed for the key it
      read. */
  lemma AnswerToRequest(x: Exchange)
    requires Fresh(x)
    ensures Answer(x.c, x.b0, RequestOf(x), x.keyB, x.idsB, x.rndB) ==
              Some((WithPrereqs(x.b0, x.a0.name, x.keyB, x.idsB), ResponseOf(x), ServicesA(x)))
  {
    SealedDocReads(x.c, x.a0, x.b0.inv, x.keyA, x.idsA, x.rndA);
    OwnServicesByType(x.a0, x.keyA, x.idsA);
  }

  /** The exchange id leads the requester to the inviter's entry, once that is stored. */
  lemma LookupFinds(x: Exchange, aPhase: APhase)
    requires Fresh(x)
    ensures ByExchId(ShapeA(x, aPhase, false).peers, x.thId) == if aPhase.Stored? then Some(x.b0.name) else None
  {
    if aPhase.Stored? {
      var peers := ShapeA(x, aPhase, false).peers;
      assert peers[x.b0.name].exchId == x.thId;
    }
  }

  lemma CompleteReads(x: Exchange)
    requires Fresh(x)
    ensures x.b0.name in ShapeA(x, Stored, false).peers
    ensures Complete(x.c, ShapeA(x, Stored, false), ResponseOf(x), x.b0.name) == Some(ShapeA(x, Stored, true))
  {
    SealedDocReads(x.c, x.b0, x.keyA, x.keyB, x.idsB, x.rndB);
    var a := ShapeA(x, Stored, false);
    assert a.peers[x.b0.name := Peer("", x.thId, ServicesB(x))] == ShapeA(x, Stored, true).peers;
  }

  lemma StepKeepsInv(x: Exchange, w: World, step: Step)
    requires Fresh(x) && Inv(x, w) && Enabled(w, step)
    ensures Inv(x, Next(x, w, step))
  {
    match step
    case SendResponse => AnswerToRequest(x);
    case Lookup => LookupKeepsInv(x, w);
    case _ =>
  }

  lemma LookupKeepsInv(x: Exchange, w: World)
    requires Fresh(x) && Inv(x, w) && Enabled(w, Lookup)
    ensures Inv(x, Next(x, w, Lookup))
  {
    LookupFinds(x, w.aPhase);
    assert w.a == ShapeA(x, w.aPhase, false) && w.res.value == ResponseOf(x) && ResponseOf(x).thId == x.thId;
    if w.aPhase.Stored? {
      CompleteReads(x);
    }
  }

  lemma {:induction false} RunKeepsInv(x: Exchange, worlds: seq<World>, steps: seq<Step>, i: nat)
    requires Fresh(x) && Run(x, worlds, steps) && i < |worlds|
    ensures Inv(x, worlds[i])
    decreases i
  {
    if i > 0 {
      RunKeepsInv(x, worlds, steps, i - 1);
      assert Enabled(worlds[i - 1], steps[i - 1]) && worlds[i - 1 + 1] == Next(x, worlds[i - 1], steps[i - 1]);
      StepKeepsInv(x, worlds[i - 1], steps[i - 1]);
    }
  }

  /** Which steps every state of an exchange allows: sending and storing the peer in turn on the requester's side,
      answering the request once and storing the requester after that on the inviter's, and lookups from the response
      on until one succeeds or eleven have not, whatever the other side has done. */
  lemma StepsPossible(x: Exchange, worlds: seq<World>, steps: seq<Step>, i: nat)
    requires Fresh(x) && Run(x, worlds, steps) && i < |worlds|
    ensures var w := worlds[i];
            (Enabled(w, SendRequest) <==> w.aPhase.Unsent?) && (Enabled(w, StorePeer) <==> w.aPhase.Sent?) &&
            (Enabled(w, SendResponse) <==> !w.aPhase.Unsent? && w.bPhase.Waiting?) &&
            (Enabled(w, StoreAnswer) <==> w.bPhase.Responded?) &&
            (Enabled(w, Lookup) <==>
             !w.bPhase.Waiting? && !w.resPhase.Completed? && !w.resPhase.GaveUp?)
  {
    RunKeepsInv(x, worlds, steps, i);
  }

  // --------------------------------------------------------------------------------------- theorems

  predicate HoldsServices(p: Prober, peer: string) {
    peer in p.peers && p.peers[peer].services != []
  }

  /** `p` and `q` share an exchange id, and each has stored, for messages and for group joins, the public half of
      the pair the other keeps for it. */
  ghost predicate Connected(c: Setup, p: Prober, q: Prober) {
    q.name in p.peers && p.name in q.peers && q.name in p.keys && p.name in q.keys &&
    p.peers[q.name].exchId == q.peers[p.name].exchId &&
    ValidPair(c, p.keys[q.name]) && ValidPair(c, q.keys[p.name]) &&
    DistinctKeys(p.keys) && DistinctKeys(q.keys) &&
    (forall typ :: typ in {SERVC_MESSAGE, SERVC_GROUP_JOIN} ==>
       ByType(p.peers[q.name].services, typ).Some? &&
         ByType(p.peers[q.name].services, typ).value.pubKey == q.keys[p.name].pub &&
       ByType(q.peers[p.name].services, typ).Some? &&
         ByType(q.peers[p.name].services, typ).value.pubKey == p.keys[q.name].pub)
  }

  /** Handshake agreement: under every interleaving, once both sides hold services they are connected under the
      exchange id of the request. */
  lemma HandshakeAgreement(x: Exchange, worlds: seq<World>, steps: seq<Step>, i: nat)
    requires Fresh(x) && Run(x, worlds, steps) && i < |worlds|
    requires HoldsServices(worlds[i].a, x.b0.name) && HoldsServices(worlds[i].b, x.a0.name)
    ensures Connected(x.c, worlds[i].a, worlds[i].b)
    ensures worlds[i].a.peers[x.b0.name].exchId == x.thId
  {
    var w := worlds[i];
    RunKeepsInv(x, worlds, steps, i);
    assert w.aPhase.Stored? && w.resPhase.Completed? && w.bPhase.Answered?;
    OwnServicesByType(x.a0, x.keyA, x.idsA);
    OwnServicesByType(x.b0, x.keyB, x.idsB);
    FreshKeysStayDistinct(x);
  }

  /** The peer entries an exchange leaves: each side's services with its two endpoints and the public half of its new
      pair, and, on the inviter's side, the DID of the document that lists them. */
  lemma PeerEntries(x: Exchange, worlds: seq<World>, steps: seq<Step>, i: nat)
    requires Fresh(x) && Run(x, worlds, steps) && i < |worlds|
    ensures HoldsServices(worlds[i].b, x.a0.name) ==>
              var doc := [DocService(x.idsA.0, "message-service", [Encode(x.keyA.pub)], x.a0.exchEndpoint),
                          DocService(x.idsA.1, "group-join-service", [Encode(x.keyA.pub)], x.a0.grpJoinEndpoint)];
              worlds[i].b.peers[x.a0.name] ==
                Peer(x.c.did(doc), x.thId,
                     [Service(x.idsA.0, "message-service", x.a0.exchEndpoint, x.keyA.pub),
                      Service(x.idsA.1, "group-join-service", x.a0.grpJoinEndpoint, x.keyA.pub)]) &&
              worlds[i].b.keys == x.b0.keys[x.a0.name := x.keyB]
    ensures HoldsServices(worlds[i].a, x.b0.name) ==>
              worlds[i].a.peers[x.b0.name] ==
                Peer("", x.thId,
                     [Service(x.idsB.0, "message-service", x.b0.exchEndpoint, x.keyB.pub),
                      Service(x.idsB.1, "group-join-service", x.b0.grpJoinEndpoint, x.keyB.pub)]) &&
              worlds[i].a.keys == x.a0.keys[x.b0.name := x.keyA]
  {
    RunKeepsInv(x, worlds, steps, i);
    assert DocumentOf(ServicesA(x)) ==
           [DocService(x.idsA.0, "message-service", [Encode(x.keyA.pub)], x.a0.exchEndpoint),
            DocService(x.idsA.1, "group-join-service", [Encode(x.keyA.pub)], x.a0.grpJoinEndpoint)];
  }

  lemma FreshKeysStayDistinct(x: Exchange)
    requires Fresh(x)
    ensures DistinctKeys(x.a0.keys[x.b0.name := x.keyA]) && DistinctKeys(x.b0.keys[x.a0.name := x.keyB])
  {
  }

  /** How many lookups the first `i` steps contain. */
  function Lookups(steps: seq<Step>, i: nat): nat
    requires i <= |steps|
  {
    if i == 0 then 0 else Lookups(steps, i - 1) + if steps[i - 1].Lookup? then 1 else 0
  }

  /** One of the first `i` steps is a lookup after the requester stored the peer. */
  ghost predicate LookedAfterStore(worlds: seq<World>, steps: seq<Step>, i: nat)
    requires i <= |steps| && |worlds| == |steps| + 1
  {
    exists k :: 0 <= k < i && steps[k].Lookup? && worlds[k].aPhase.Stored?
  }

  /** What one step does to the response handler. */
  ghost predicate HandlerStep(w: World, step: Step, after: ResPhase) {
    match step
    case Lookup =>
      w.resPhase.Looking? && w.resPhase.made <= RETRY_COUNT &&
      after == if w.aPhase.Stored? then Completed else if w.resPhase.made == RETRY_COUNT
        then GaveUp else Looking(w.resPhase.made + 1)
    case SendResponse => w.resPhase.NoResponse? && after == Looking(0)
    case _ => after == w.resPhase
  }

  ghost predicate HandlerRun(worlds: seq<World>, steps: seq<Step>) {
    |worlds| == |steps| + 1 && worlds[0].resPhase.NoResponse? &&
    forall i :: 0 <= i < |steps| ==> HandlerStep(worlds[i], steps[i], worlds[i + 1].resPhase)
  }

  lemma {:induction false} CountLookups(worlds: seq<World>, steps: seq<Step>, i: nat)
    requires HandlerRun(worlds, steps) && i < |worlds|
    ensures worlds[i].resPhase.NoResponse? ==> Lookups(steps, i) == 0
    ensures worlds[i].resPhase.Looking? ==> Lookups(steps, i) == worlds[i].resPhase.made <= RETRY_COUNT
    ensures worlds[i].resPhase.GaveUp? ==> Lookups(steps, i) == RETRY_COUNT + 1
    ensures worlds[i].resPhase.Completed? ==> Lookups(steps, i) <= RETRY_COUNT + 1
    ensures !worlds[i].resPhase.Broken?
    ensures worlds[i].resPhase.Completed? <==> LookedAfterStore(worlds, steps, i)
    decreases i
  {
    if i > 0 {
      CountLookups(worlds, steps, i - 1);
      assert HandlerStep(worlds[i - 1], steps[i - 1], worlds[i - 1 + 1].resPhase);
      if worlds[i - 1].resPhase.Completed? {
        var k :| 0 <= k < i - 1 && steps[k].Lookup? && worlds[k].aPhase.Stored?;
        assert LookedAfterStore(worlds, steps, i);
      }
    }
  }

  /** The response handler makes at most eleven lookups; it completes exactly when one of them comes after the
      peer was stored, and gives up only after eleven that came before. */
  lemma LookupsAreBounded(x: Exchange, worlds: seq<World>, steps: seq<Step>, i: nat)
    requires Fresh(x) && Run(x, worlds, steps) && i < |worlds|
    ensures Lookups(steps, i) <= 11
    ensures worlds[i].resPhase.GaveUp? ==> Lookups(steps, i) == 11
    ensures worlds[i].resPhase.Completed? <==> LookedAfterStore(worlds, steps, i)
  {
    forall j | 0 <= j < |steps| ensures HandlerStep(worlds[j], steps[j], worlds[j + 1].resPhase) {
      RunKeepsInv(x, worlds, steps, j);
      LookupOutcome(x, worlds[j], steps[j]);
    }
    CountLookups(worlds, steps, i);
  }

  lemma LookupOutcome(x: Exchange, w: World, step: Step)
    requires Fresh(x) && Inv(x, w) && Enabled(w, step)
    ensures HandlerStep(w, step, Next(x, w, step).resPhase)
  {
    match step
    case SendResponse => AnswerToRequest(x);
    case Lookup =>
      LookupFinds(x, w.aPhase);
      CompleteReads(x);
    case _ =>
  }

  ghost predicate Stuck(w: World) {
    forall step :: !Enabled(w, step)
  }

  /** When no step is left, the inviter holds the requester's services, and the exchange is complete exactly when
      one of the lookups came after the requester had stored the peer. */
  lemma ExchangeCompletes(x: Exchange, worlds: seq<World>, steps: seq<Step>)
    requires Fresh(x) && Run(x, worlds, steps) && Stuck(worlds[|steps|])
    ensures var w := worlds[|steps|];
            HoldsServices(w.b, x.a0.name) &&
            (HoldsServices(w.a, x.b0.name) <==> LookedAfterStore(worlds, steps, |steps|))
  {
    RunKeepsInv(x, worlds, steps, |steps|);
    LookupsAreBounded(x, worlds, steps, |steps|);
    StuckWorld(x, worlds[|steps|]);
  }

  lemma StuckWorld(x: Exchange, w: World)
    requires Fresh(x) && Inv(x, w) && Stuck(w)
    ensures HoldsServices(w.b, x.a0.name)
    ensures HoldsServices(w.a, x.b0.name) <==> w.resPhase.Completed?
  {
    assert !Enabled(w, SendRequest) && !Enabled(w, StorePeer) && !Enabled(w, SendResponse) &&
           !Enabled(w, StoreAnswer) && !Enabled(w, Lookup);
  }

  // ------------------------------------------------------------------------------- runs that complete

  lemma OneMoreStep(x: Exchange, worlds: seq<World>, steps: seq<Step>, step: Step)
    returns (worlds': seq<World>, steps': seq<Step>)
    requires Fresh(x) && Run(x, worlds, steps) && Enabled(worlds[|steps|], step)
    ensures Run(x, worlds', steps') && steps' == steps + [step]
    ensures worlds'[|steps'|] == Next(x, worlds[|steps|], step) && Inv(x, worlds'[|steps'|])
  {
    worlds', steps' := worlds + [Next(x, worlds[|steps|], step)], steps + [step];
    forall i | 0 <= i < |steps'|
      ensures Enabled(worlds'[i], steps'[i]) && worlds'[i + 1] == Next(x, worlds'[i], steps'[i])
    {
      if i < |steps| {
        assert worlds'[i] == worlds[i] && worlds'[i + 1] == worlds[i + 1] && steps'[i] == steps[i];
      }
    }
    RunKeepsInv(x, worlds', steps', |steps'|);
  }

  /** The response overtakes the storing of the peer: `misses` lookups come too early. */
  lemma {:induction false} EarlyLookups(x: Exchange, misses: nat) returns (worlds: seq<World>, steps: seq<Step>)
    requires Fresh(x) && misses <= 10
    ensures Run(x, worlds, steps) && Inv(x, worlds[|steps|]) && Lookups(steps, |steps|) == misses
    ensures var w := worlds[|steps|]; w.aPhase.Sent? && w.bPhase.Responded? && w.resPhase == Looking(misses)
  {
    if misses == 0 {
      worlds, steps := BothSent(x);
    } else {
      worlds, steps := EarlyLookups(x, misses - 1);
      worlds, steps := OneMiss(x, worlds, steps, misses - 1);
    }
  }

  lemma BothSent(x: Exchange) returns (worlds: seq<World>, steps: seq<Step>)
    requires Fresh(x)
    ensures Run(x, worlds, steps) && Inv(x, worlds[|steps|]) && Lookups(steps, |steps|) == 0
    ensures var w := worlds[|steps|]; w.aPhase.Sent? && w.bPhase.Responded? && w.resPhase == Looking(0)
  {
    worlds, steps := [World(x.a0, x.b0, Unsent, NoResponse, Waiting, None, None)], [];
    CountOneMore(steps, SendRequest);
    worlds, steps := OneMoreStep(x, worlds, steps, SendRequest);
    CountOneMore(steps, SendResponse);
    worlds, steps := OneMoreStep(x, worlds, steps, SendResponse);
  }

  lemma OneMiss(x: Exchange, worlds: seq<World>, steps: seq<Step>, made: nat)
    returns (worlds': seq<World>, steps': seq<Step>)
    requires Fresh(x) && Run(x, worlds, steps) && Inv(x, worlds[|steps|]) && made < 10
    requires var w := worlds[|steps|]; w.aPhase.Sent? && w.bPhase.Responded? && w.resPhase == Looking(made)
    ensures Run(x, worlds', steps') && Inv(x, worlds'[|steps'|])
    ensures Lookups(steps', |steps'|) == Lookups(steps, |steps|) + 1
    ensures var w := worlds'[|steps'|]; w.aPhase.Sent? && w.bPhase.Responded? && w.resPhase == Looking(made + 1)
  {
    MissedLookup(x, worlds[|steps|]);
    CountOneMore(steps, Lookup);
    worlds', steps' := OneMoreStep(x, worlds, steps, Lookup);
  }

  /** A lookup before the peer is stored changes nothing but the count. */
  lemma MissedLookup(x: Exchange, w: World)
    requires Fresh(x) && Inv(x, w) && w.aPhase.Sent? && w.resPhase.Looking? && w.res.Some?
    ensures Next(x, w, Lookup) ==
            w.(resPhase := if w.resPhase.made == 10 then GaveUp else Looking(w.resPhase.made + 1))
  {
    LookupFinds(x, w.aPhase);
  }

  lemma {:induction false} CountPrefix(steps: seq<Step>, step: Step, i: nat)
    requires i <= |steps|
    ensures Lookups(steps + [step], i) == Lookups(steps, i)
    decreases i
  {
    if i > 0 {
      CountPrefix(steps, step, i - 1);
      assert (steps + [step])[i - 1] == steps[i - 1];
    }
  }

  lemma CountOneMore(steps: seq<Step>, step: Step)
    ensures Lookups(steps + [step], |steps| + 1) == Lookups(steps, |steps|) + if step.Lookup? then 1 else 0
  {
    CountPrefix(steps, step, |steps|);
    assert (steps + [step])[|steps|] == step;
  }

  /** An exchange can complete however many lookups, up to ten, come before the requester has stored the peer. */
  lemma ExchangeCanComplete(x: Exchange, misses: nat) returns (worlds: seq<World>, steps: seq<Step>)
    requires Fresh(x) && misses <= 10
    ensures Run(x, worlds, steps) && Lookups(steps, |steps|) == misses + 1
    ensures HoldsServices(worlds[|steps|].a, x.b0.name) && HoldsServices(worlds[|steps|].b, x.a0.name)
  {
    worlds, steps := EarlyLookups(x, misses);
    CountOneMore(steps, StorePeer);
    worlds, steps := OneMoreStep(x, worlds, steps, StorePeer);
    worlds, steps := LookupAndAnswer(x, worlds, steps);
  }

  lemma LookupAndAnswer(x: Exchange, worlds: seq<World>, steps: seq<Step>)
    returns (worlds': seq<World>, steps': seq<Step>)
    requires Fresh(x) && Run(x, worlds, steps) && Inv(x, worlds[|steps|])
    requires var w := worlds[|steps|]; w.aPhase.Stored? && w.bPhase.Responded? && w.resPhase.Looking?
    ensures Run(x, worlds', steps') && Lookups(steps', |steps'|) == Lookups(steps, |steps|) + 1
    ensures HoldsServices(worlds'[|steps'|].a, x.b0.name) && HoldsServices(worlds'[|steps'|].b, x.a0.name)
  {
    LookupCompletes(x, worlds[|steps|]);
    CountOneMore(steps, Lookup);
    var worlds1, steps1 := OneMoreStep(x, worlds, steps, Lookup);
    BothHold(x, worlds1[|steps1|]);
    CountOneMore(steps1, StoreAnswer);
    worlds', steps' := OneMoreStep(x, worlds1, steps1, StoreAnswer);
  }

  lemma LookupCompletes(x: Exchange, w: World)
    requires Fresh(x) && Inv(x, w) && w.aPhase.Stored? && w.bPhase.Responded? && w.resPhase.Looking?
    ensures Enabled(w, Lookup)
    ensures var w' := Next(x, w, Lookup); w'.resPhase.Completed? && w'.bPhase.Responded? && w'.aPhase.Stored?
  {
    LookupOutcome(x, w, Lookup);
  }

  lemma BothHold(x: Exchange, w: World)
    requires Inv(x, w) && w.resPhase.Completed? && w.bPhase.Responded?
    ensures Enabled(w, StoreAnswer)
    ensures var w' := Next(x, w, StoreAnswer); HoldsServices(w'.a, x.b0.name) && HoldsServices(w'.b, x.a0.name)
  {
  }

  /** End-to-end envelope round trip: over a connection, whatever text `p` sends, with whatever random values,
      `q` reads exactly that text and names `p`, and the other way round. */
  lemma EndToEnd(c: Setup, p: Prober, q: Prober, text: bytes, rnd: Random)
    requires LawfulSetup(c) && Connected(c, p, q)
    ensures Outgoing(c, p, q.name, text, rnd).Some? && Outgoing(c, q, p.name, text, rnd).Some?
    ensures ReadMessage(c, q.keys, Outgoing(c, p, q.name, text, rnd).value) == Message(p.name, text)
    ensures ReadMessage(c, p.keys, Outgoing(c, q, p.name, text, rnd).value) == Message(q.name, text)
  {
    assert SERVC_MESSAGE in {SERVC_MESSAGE, SERVC_GROUP_JOIN};
    PackedIsRead(c, q.keys, p.name, p.keys[q.name], text, rnd);
    PackedIsRead(c, p.keys, q.name, q.keys[p.name], text, rnd);
  }
}
