/** The internal control plane of an agent: a requester hands its request to the connector goroutine, which
    registers the reply channels and publishes the request to the inboxes of the state and the data listener;
    the requester then waits for the state reply and, if that is a success, for the data reply.  All channels
    are unbuffered, so a listener blocks until its reply is taken (`pubsub/processor.go`, `pubsub/transport/zmq.go`). */
module ControlPlane {
  import opened GoStrings
  import opened Base64
  import GroupStore
  import Listeners

  type Req = string

  datatype Phase = Idle | AwaitState | AwaitData | Finished(ok: bool)

  /** Whether the operation of each listener for the request succeeds. */
  datatype Outcome = Outcome(state: bool, data: bool)

  /** `connector` is the request the connector holds, `stateOut` and `dataOut` the requests whose replies the
      listeners are trying to hand over; `published`, `stateReplies` and `dataReplies` record what happened. */
  datatype Plane = Plane(
    phase: map<Req, Phase>,
    connector: Option<Req>,
    channels: set<Req>,
    stateQ: seq<Req>, dataQ: seq<Req>,
    stateOut: Option<Req>, dataOut: Option<Req>,
    published: seq<Req>,
    stateReplies: multiset<Req>, dataReplies: multiset<Req>)

  datatype Step = Submit(r: Req) | Publish | TakeState | ReplyState | TakeData | ReplyData

  ghost predicate Init(reqs: set<Req>, p: Plane) {
    p.phase.Keys == reqs && (forall r :: r in reqs ==> p.phase[r] == Idle) &&
    p == Plane(p.phase, None, {}, [], [], None, None, [], multiset{}, multiset{})
  }

  predicate Enabled(p: Plane, step: Step) {
    match step
    case Submit(r) => p.connector.None? && r in p.phase && p.phase[r] == Idle
    case Publish => p.connector.Some?
    case TakeState => p.stateOut.None? && p.stateQ != []
    case ReplyState => p.stateOut.Some? && Receives(p, p.stateOut.value, AwaitState)
    case TakeData => p.dataOut.None? && p.dataQ != []
    case ReplyData => p.dataOut.Some? && Receives(p, p.dataOut.value, AwaitData)
  }

  /** A reply is taken only from a registered channel whose requester waits on it; an unregistered id yields a
      nil channel, which blocks forever. */
  predicate Receives(p: Plane, r: Req, on: Phase) {
    r in p.channels && r in p.phase && p.phase[r] == on
  }

  function Next(out: map<Req, Outcome>, p: Plane, step: Step): Plane
    requires Enabled(p, step) && p.phase.Keys <= out.Keys
  {
    match step
    case Submit(r) => p.(phase := p.phase[r := AwaitState], connector := Some(r))
    case Publish =>
      var r := p.connector.value;
      p.(connector := None, channels := p.channels + {r},
         stateQ := p.stateQ + [r], dataQ := p.dataQ + [r], published := p.published + [r])
    case TakeState => p.(stateOut := Some(p.stateQ[0]), stateQ := p.stateQ[1..])
    case ReplyState =>
      var r := p.stateOut.value;
      p.(stateOut := None, stateReplies := p.stateReplies + multiset{r},
         phase := p.phase[r := if out[r].state then AwaitData else Finished(false)])
    case TakeData => p.(dataOut := Some(p.dataQ[0]), dataQ := p.dataQ[1..])
    case ReplyData =>
      var r := p.dataOut.value;
      p.(dataOut := None, dataReplies := p.dataReplies + multiset{r}, phase := p.phase[r := Finished(out[r].data)])
  }

  ghost predicate Run(out: map<Req, Outcome>, planes: seq<Plane>, steps: seq<Step>) {
    |planes| == |steps| + 1 && Init(out.Keys, planes[0]) &&
    forall i :: 0 <= i < |steps| ==>
      planes[i].phase.Keys == out.Keys && Enabled(planes[i], steps[i]) &&
        planes[i + 1] == Next(out, planes[i], steps[i])
  }

  // ------------------------------------------------------------------------------------- invariant

  /** How many published requests the state listener has replied to. */
  function StateDone(p: Plane): int {
    |p.published| - |p.stateQ| - if p.stateOut.Some? then 1 else 0
  }

  function DataDone(p: Plane): int {
    |p.published| - |p.dataQ| - if p.dataOut.Some? then 1 else 0
  }

  /** A listener's inbox and the reply it is handing over are the published requests it has not replied to, in order. */
  predicate InOrder(published: seq<Req>, done: int, held: Option<Req>, queue: seq<Req>) {
    0 <= done <= |published| && published[done..] == (if held.Some? then [held.value] else []) + queue
  }

  /** The phase of the `i`-th published request, given how far the listeners have got. */
  function PhaseOf(o: Outcome, i: int, stateDone: int, dataDone: int): Phase {
    if i >= stateDone then AwaitState
    else if !o.state then Finished(false)
    else if i >= dataDone then AwaitData
    else Finished(o.data)
  }

  /** Who is where: the connector's request is not yet published, published ones have registered channels, and the
      rest are idle. */
  ghost predicate Places(phase: map<Req, Phase>, connector: Option<Req>, channels: set<Req>, published: seq<Req>) {
    NoDuplicates(published) &&
    (forall r :: r in published ==> r in phase && r in channels) &&
    (connector.Some? ==>
     connector.value in phase && connector.value !in published && phase[connector.value] == AwaitState) &&
    (forall r :: r in phase && r !in published && connector != Some(r) ==> phase[r] == Idle)
  }

  ghost predicate Phases(out: map<Req, Outcome>, phase: map<Req, Phase>, published: seq<Req>, stateDone: int,
                         dataDone: int) {
    0 <= dataDone <= stateDone <= |published| &&
    (forall i :: 0 <= i < |published| ==>
       published[i] in out && published[i] in phase &&
         phase[published[i]] == PhaseOf(out[published[i]], i, stateDone, dataDone)) &&
    (forall i :: 0 <= i < dataDone ==> published[i] in out && out[published[i]].state)
  }

  /** A listener's inbox is in order, and it has replied once to each request it is done with. */
  ghost predicate Side(published: seq<Req>, done: int, held: Option<Req>, queue: seq<Req>, replies: multiset<Req>) {
    InOrder(published, done, held, queue) && replies == multiset(published[..done])
  }

  ghost predicate Queues(p: Plane) {
    Side(p.published, StateDone(p), p.stateOut, p.stateQ, p.stateReplies) &&
    Side(p.published, DataDone(p), p.dataOut, p.dataQ, p.dataReplies)
  }

  ghost predicate Inv(out: map<Req, Outcome>, p: Plane) {
    p.phase.Keys == out.Keys &&
    Places(p.phase, p.connector, p.channels, p.published) &&
    Queues(p) &&
    Phases(out, p.phase, p.published, StateDone(p), DataDone(p))
  }

  lemma IdleIsUnpublished(out: map<Req, Outcome>, p: Plane, r: Req)
    requires Inv(out, p) && r in p.phase && p.phase[r] == Idle
    ensures r !in p.published
  {
    forall i | 0 <= i < |p.published| ensures p.published[i] != r {
      assert p.phase[p.published[i]] == PhaseOf(out[p.published[i]], i, StateDone(p), DataDone(p));
    }
  }

  lemma SubmitKeepsInv(out: map<Req, Outcome>, p: Plane, r: Req)
    requires Inv(out, p) && Enabled(p, Submit(r))
    ensures Inv(out, Next(out, p, Submit(r)))
  {
    IdleIsUnpublished(out, p, r);
    SubmitPhases(out, p.phase, p.published, StateDone(p), DataDone(p), r);
    SubmitPlaces(p, r);
    var p' := Next(out, p, Submit(r));
    assert StateDone(p') == StateDone(p) && DataDone(p') == DataDone(p);
  }

  lemma SubmitPlaces(p: Plane, r: Req)
    requires Places(p.phase, p.connector, p.channels, p.published) && p.connector.None? && r in p.phase &&
             r !in p.published
    ensures Places(p.phase[r := AwaitState], Some(r), p.channels, p.published)
  {
  }

  lemma SubmitPhases(out: map<Req, Outcome>, phase: map<Req, Phase>, published: seq<Req>, s: int, d: int, r: Req)
    requires Phases(out, phase, published, s, d) && r !in published
    ensures Phases(out, phase[r := AwaitState], published, s, d)
  {
    assert forall i :: 0 <= i < |published| ==> published[i] != r;
  }

  lemma QueueAppend(published: seq<Req>, done: int, held: Option<Req>, queue: seq<Req>, replies: multiset<Req>, r: Req)
    requires Side(published, done, held, queue, replies)
    ensures Side(published + [r], done, held, queue + [r], replies)
  {
    assert (published + [r])[done..] == published[done..] + [r];
    assert (published + [r])[..done] == published[..done];
  }

  lemma PublishQueues(p: Plane, p': Plane, r: Req)
    requires Queues(p) &&
             p' == p.(connector := None, channels := p.channels + {r},
                      stateQ := p.stateQ + [r], dataQ := p.dataQ + [r], published := p.published + [r])
    ensures Queues(p') && StateDone(p') == StateDone(p) && DataDone(p') == DataDone(p)
  {
    QueueAppend(p.published, StateDone(p), p.stateOut, p.stateQ, p.stateReplies, r);
    QueueAppend(p.published, DataDone(p), p.dataOut, p.dataQ, p.dataReplies, r);
    assert StateDone(p') == StateDone(p) && DataDone(p') == DataDone(p);
  }

  lemma PublishKeepsInv(out: map<Req, Outcome>, p: Plane)
    requires Inv(out, p) && Enabled(p, Publish)
    ensures Inv(out, Next(out, p, Publish))
  {
    var p' := Next(out, p, Publish);
    PublishQueues(p, p', p.connector.value);
    assert Phases(out, p'.phase, p'.published, StateDone(p'), DataDone(p'));
    assert Places(p'.phase, p'.connector, p'.channels, p'.published);
  }

  lemma TakeSide(published: seq<Req>, done: int, queue: seq<Req>, replies: multiset<Req>)
    requires Side(published, done, None, queue, replies) && queue != []
    ensures Side(published, done, Some(queue[0]), queue[1..], replies)
  {
    assert [queue[0]] + queue[1..] == [] + queue;
  }

  lemma TakeQueues(out: map<Req, Outcome>, p: Plane, step: Step)
    requires Queues(p) && Enabled(p, step) && (step == TakeState || step == TakeData) && p.phase.Keys <= out.Keys
    ensures Queues(Next(out, p, step))
    ensures StateDone(Next(out, p, step)) == StateDone(p) && DataDone(Next(out, p, step)) == DataDone(p)
  {
    if step == TakeState {
      TakeSide(p.published, StateDone(p), p.stateQ, p.stateReplies);
    } else {
      TakeSide(p.published, DataDone(p), p.dataQ, p.dataReplies);
    }
  }

  lemma TakeKeepsInv(out: map<Req, Outcome>, p: Plane, step: Step)
    requires Inv(out, p) && Enabled(p, step) && (step == TakeState || step == TakeData)
    ensures Inv(out, Next(out, p, step))
  {
    TakeQueues(out, p, step);
  }

  lemma HeldIsNext(published: seq<Req>, done: int, held: Req, queue: seq<Req>)
    requires InOrder(published, done, Some(held), queue)
    ensures done < |published| && published[done] == held
    ensures InOrder(published, done + 1, None, queue)
    ensures published[..done + 1] == published[..done] + [held]
  {
    assert published[done..][0] == held;
    assert published[done + 1..] == published[done..][1..];
  }

  lemma ReplySide(published: seq<Req>, done: int, held: Req, queue: seq<Req>, replies: multiset<Req>)
    requires Side(published, done, Some(held), queue, replies)
    ensures done < |published| && published[done] == held
    ensures Side(published, done + 1, None, queue, replies + multiset{held})
  {
    HeldIsNext(published, done, held, queue);
  }

  /** Changing the phase of one published request leaves the others alone. */
  lemma PlacesAfterReply(p: Plane, r: Req, phase: Phase)
    requires Places(p.phase, p.connector, p.channels, p.published) && r in p.published && phase != Idle
    ensures Places(p.phase[r := phase], p.connector, p.channels, p.published)
  {
  }

  lemma StateReplyPhases(out: map<Req, Outcome>, phase: map<Req, Phase>, published: seq<Req>, s: int, d: int)
    requires NoDuplicates(published) && Phases(out, phase, published, s, d) && s < |published|
    ensures Phases(out, phase[published[s] := if out[published[s]].state then AwaitData else Finished(false)],
                   published, s + 1, d)
  {
    forall i | 0 <= i < |published| && i != s ensures published[i] != published[s] { }
  }

  lemma ReplyStateQueues(out: map<Req, Outcome>, p: Plane)
    requires Queues(p) && Enabled(p, ReplyState) && p.phase.Keys <= out.Keys
    ensures Queues(Next(out, p, ReplyState))
    ensures StateDone(Next(out, p, ReplyState)) == StateDone(p) + 1 && DataDone(Next(out, p, ReplyState)) == DataDone(p)
    ensures StateDone(p) < |p.published| && p.published[StateDone(p)] == p.stateOut.value
  {
    ReplySide(p.published, StateDone(p), p.stateOut.value, p.stateQ, p.stateReplies);
  }

  lemma ReplyStateKeepsInv(out: map<Req, Outcome>, p: Plane)
    requires Inv(out, p) && Enabled(p, ReplyState)
    ensures Inv(out, Next(out, p, ReplyState))
  {
    var r := p.stateOut.value;
    ReplyStateQueues(out, p);
    StateReplyPhases(out, p.phase, p.published, StateDone(p), DataDone(p));
    PlacesAfterReply(p, r, if out[r].state then AwaitData else Finished(false));
  }

  /** Only the next request that passed the state side waits for a data reply. */
  lemma DataReplyPhases(out: map<Req, Outcome>, phase: map<Req, Phase>, published: seq<Req>, s: int, d: int)
    requires NoDuplicates(published) && Phases(out, phase, published, s, d) && d < |published|
    requires published[d] in phase && phase[published[d]] == AwaitData
    ensures Phases(out, phase[published[d] := Finished(out[published[d]].data)], published, s, d + 1)
  {
    assert phase[published[d]] == PhaseOf(out[published[d]], d, s, d);
    forall i | 0 <= i < |published| && i != d ensures published[i] != published[d] { }
  }

  lemma ReplyDataQueues(out: map<Req, Outcome>, p: Plane)
    requires Queues(p) && Enabled(p, ReplyData) && p.phase.Keys <= out.Keys
    ensures Queues(Next(out, p, ReplyData))
    ensures DataDone(Next(out, p, ReplyData)) == DataDone(p) + 1 && StateDone(Next(out, p, ReplyData)) == StateDone(p)
    ensures DataDone(p) < |p.published| && p.published[DataDone(p)] == p.dataOut.value
  {
    ReplySide(p.published, DataDone(p), p.dataOut.value, p.dataQ, p.dataReplies);
  }

  lemma ReplyDataKeepsInv(out: map<Req, Outcome>, p: Plane)
    requires Inv(out, p) && Enabled(p, ReplyData)
    ensures Inv(out, Next(out, p, ReplyData))
  {
    var r := p.dataOut.value;
    ReplyDataQueues(out, p);
    DataReplyPhases(out, p.phase, p.published, StateDone(p), DataDone(p));
    PlacesAfterReply(p, r, Finished(out[r].data));
  }

  lemma StepKeepsInv(out: map<Req, Outcome>, p: Plane, step: Step)
    requires Inv(out, p) && Enabled(p, step)
    ensures Inv(out, Next(out, p, step))
  {
    match step
    case Submit(r) => SubmitKeepsInv(out, p, r);
    case Publish => PublishKeepsInv(out, p);
    case TakeState => TakeKeepsInv(out, p, step);
    case ReplyState => ReplyStateKeepsInv(out, p);
    case TakeData => TakeKeepsInv(out, p, step);
    case ReplyData => ReplyDataKeepsInv(out, p);
  }

  lemma InitInv(out: map<Req, Outcome>, p: Plane)
    requires Init(out.Keys, p)
    ensures Inv(out, p)
  {
  }

  lemma {:induction false} RunKeepsInv(out: map<Req, Outcome>, planes: seq<Plane>, steps: seq<Step>, i: nat)
    requires Run(out, planes, steps) && i < |planes|
    ensures Inv(out, planes[i])
    decreases i
  {
    if i == 0 {
      InitInv(out, planes[0]);
    } else {
      RunKeepsInv(out, planes, steps, i - 1);
      assert Enabled(planes[i - 1], steps[i - 1]) && planes[i - 1 + 1] == Next(out, planes[i - 1], steps[i - 1]);
      StepKeepsInv(out, planes[i - 1], steps[i - 1]);
    }
  }

  // --------------------------------------------------------------------------------------- theorems

  ghost predicate Stuck(p: Plane) {
    forall step :: !Enabled(p, step)
  }

  ghost predicate Complete(p: Plane) {
    (forall r :: r in p.phase ==> p.phase[r].Finished?) && p.stateOut.None? && p.dataOut.None?
  }

  ghost predicate NoStateFailure(out: map<Req, Outcome>) {
    forall r :: r in out ==> out[r].state
  }

  lemma StuckConnector(out: map<Req, Outcome>, p: Plane)
    requires Inv(out, p) && Stuck(p)
    ensures p.connector.None? && forall r :: r in p.phase ==> r in p.published
  {
    assert !Enabled(p, Publish);
    forall r | r in p.phase ensures r in p.published {
      assert !Enabled(p, Submit(r));
    }
  }

  lemma StuckStateListener(out: map<Req, Outcome>, p: Plane)
    requires Inv(out, p) && Stuck(p)
    ensures StateDone(p) == |p.published| && p.stateOut.None?
  {
    assert !Enabled(p, TakeState) && !Enabled(p, ReplyState);
    if p.stateOut.Some? {
      var s := StateDone(p);
      HeldIsNext(p.published, s, p.stateOut.value, p.stateQ);
      assert p.phase[p.published[s]] == PhaseOf(out[p.published[s]], s, s, DataDone(p));
      assert Receives(p, p.stateOut.value, AwaitState);
    }
  }

  lemma StuckDataListener(out: map<Req, Outcome>, p: Plane)
    requires Inv(out, p) && Stuck(p)
    ensures p.dataOut.None? ==> DataDone(p) == |p.published|
    ensures p.dataOut.Some? ==>
              DataDone(p) < |p.published| && p.published[DataDone(p)] == p.dataOut.value &&
              p.dataOut.value in out && !out[p.dataOut.value].state
  {
    StuckStateListener(out, p);
    if p.dataOut.Some? {
      HeldDataPhase(out, p);
      BlockedReply(out, p);
    } else {
      AllTaken(p);
    }
  }

  lemma BlockedReply(out: map<Req, Outcome>, p: Plane)
    requires p.dataOut.Some? && !Enabled(p, ReplyData)
    requires p.dataOut.value in p.channels && p.dataOut.value in out && p.dataOut.value in p.phase
    requires p.phase[p.dataOut.value] == if out[p.dataOut.value].state then AwaitData else Finished(false)
    ensures !out[p.dataOut.value].state
  {
  }

  /** With nothing queued and nothing held the data listener has answered every published request. */
  lemma AllTaken(p: Plane)
    requires Queues(p) && p.dataOut.None? && !Enabled(p, TakeData)
    ensures DataDone(p) == |p.published|
  {
  }

  /** Once the state listener is done, the requester whose data reply is held waits for it unless the state side
      failed. */
  lemma HeldDataPhase(out: map<Req, Outcome>, p: Plane)
    requires Inv(out, p) && p.dataOut.Some? && StateDone(p) == |p.published|
    ensures DataDone(p) < |p.published| && p.published[DataDone(p)] == p.dataOut.value
    ensures p.dataOut.value in p.channels && p.dataOut.value in out && p.dataOut.value in p.phase
    ensures p.phase[p.dataOut.value] == if out[p.dataOut.value].state then AwaitData else Finished(false)
  {
    var d := DataDone(p);
    HeldIsNext(p.published, d, p.dataOut.value, p.dataQ);
    assert p.phase[p.published[d]] == PhaseOf(out[p.published[d]], d, StateDone(p), d);
  }

  /** Exactly when no state-side operation fails, the only states without a further step are those in which
      every request has completed and both listeners are free. */
  lemma StuckIffComplete(out: map<Req, Outcome>, planes: seq<Plane>, steps: seq<Step>, i: nat)
    requires Run(out, planes, steps) && i < |planes| && Stuck(planes[i])
    ensures Complete(planes[i]) <==> NoStateFailure(out)
  {
    var p := planes[i];
    RunKeepsInv(out, planes, steps, i);
    StuckConnector(out, p);
    StuckStateListener(out, p);
    StuckDataListener(out, p);
    if NoStateFailure(out) {
      forall r | r in p.phase ensures p.phase[r].Finished? {
        var k :| 0 <= k < |p.published| && p.published[k] == r;
      }
    }
    if Complete(p) {
      forall r | r in out ensures out[r].state {
        var k :| 0 <= k < |p.published| && p.published[k] == r;
      }
    }
  }

  /** After a state-side failure the data listener ends up holding the reply of the first request that failed,
      and every later request that passed the state side waits for its data reply forever. */
  lemma FailureBlocksDataListener(out: map<Req, Outcome>, planes: seq<Plane>, steps: seq<Step>, i: nat, k: nat)
    requires Run(out, planes, steps) && i < |planes| && Stuck(planes[i])
    requires k < |planes[i].published| && planes[i].published[k] in out && !out[planes[i].published[k]].state
    requires forall j :: 0 <= j < k ==> planes[i].published[j] in out && out[planes[i].published[j]].state
    ensures var p := planes[i];
            p.dataOut == Some(p.published[k]) &&
            forall j :: k < j < |p.published| ==>
              p.published[j] in out && p.published[j] in p.phase &&
              p.phase[p.published[j]] == if out[p.published[j]].state then AwaitData else Finished(false)
  {
    var p := planes[i];
    RunKeepsInv(out, planes, steps, i);
    StuckConnector(out, p);
    StuckStateListener(out, p);
    StuckDataListener(out, p);
    assert DataDone(p) <= k;
    assert DataDone(p) == k;
  }

  /** In every run each request gets at most one reply on each of its channels, exactly one state reply once it
      has finished, and exactly one data reply if it finished after passing the state side. */
  lemma RepliesAreUnique(out: map<Req, Outcome>, planes: seq<Plane>, steps: seq<Step>, i: nat, r: Req)
    requires Run(out, planes, steps) && i < |planes| && r in out
    ensures var p := planes[i];
            r in p.phase && p.stateReplies[r] <= 1 && p.dataReplies[r] <= 1 &&
            (p.phase[r].AwaitData? || p.phase[r].Finished? <==> p.stateReplies[r] == 1) &&
            (p.phase[r].Finished? && out[r].state <==> p.dataReplies[r] == 1) &&
            (p.phase[r].Finished? ==> p.phase[r].ok == (out[r].state && out[r].data))
  {
    var p := planes[i];
    RunKeepsInv(out, planes, steps, i);
    PrefixCount(p.published, StateDone(p), r);
    PrefixCount(p.published, DataDone(p), r);
    if r in p.published {
      var k :| 0 <= k < |p.published| && p.published[k] == r;
      assert p.phase[p.published[k]] == PhaseOf(out[p.published[k]], k, StateDone(p), DataDone(p));
    }
  }

  /** The outcome of a request whose message does not make the data listener panic is what the two listeners reply. */
  ghost function OutcomeOf(groups: GroupStore.Groups, msg: Listeners.Internal, state: Listeners.Socket,
                           data: Listeners.Socket): Outcome {
    Outcome(!Listeners.StateFails(groups, msg, state), !Listeners.DataFails(groups, msg, data))
  }

  /** When nothing is left to do for the requests with the messages `msgs`, none of which makes the data listener
      panic, all have completed exactly if every one of them passes the branches of the state listener; and each
      reports success exactly if it passes both. */
  lemma ServedRequestsComplete(msgs: map<Req, Listeners.Internal>, groups: GroupStore.Groups, state: Listeners.Socket,
                               data: Listeners.Socket,
                               out: map<Req, Outcome>, planes: seq<Plane>, steps: seq<Step>, i: nat)
    requires forall r :: r in msgs ==> !Listeners.DataPanics(groups, msgs[r], data)
    requires out == map r | r in msgs :: OutcomeOf(groups, msgs[r], state, data)
    requires Run(out, planes, steps) && i < |planes| && Stuck(planes[i])
    ensures Complete(planes[i]) <==> forall r :: r in msgs ==> !Listeners.StateFails(groups, msgs[r], state)
    ensures forall r :: r in msgs && r in planes[i].phase && planes[i].phase[r].Finished? ==>
              (planes[i].phase[r].ok <==>
               !Listeners.StateFails(groups, msgs[r], state) && !Listeners.DataFails(groups, msgs[r], data))
  {
    StuckIffComplete(out, planes, steps, i);
    forall r | r in msgs ensures r in out && out[r] == OutcomeOf(groups, msgs[r], state, data) { }
    assert forall r :: r in out ==> out[r] == OutcomeOf(groups, msgs[r], state, data);
    assert NoStateFailure(out) <==> forall r :: r in msgs ==> !Listeners.StateFails(groups, msgs[r], state);
    forall r | r in msgs && r in planes[i].phase && planes[i].phase[r].Finished?
      ensures planes[i].phase[r].ok <==>
                !Listeners.StateFails(groups, msgs[r], state) && !Listeners.DataFails(groups, msgs[r], data)
    {
      RepliesAreUnique(out, planes, steps, i, r);
    }
  }

  lemma PrefixCount(published: seq<Req>, n: int, r: Req)
    requires NoDuplicates(published) && 0 <= n <= |published|
    ensures multiset(published[..n])[r] == if r in published[..n] then 1 else 0
    ensures forall k :: 0 <= k < |published| && published[k] == r ==> (r in published[..n] <==> k < n)
  {
    NoDuplicatesCount(published[..n]);
    assert r in published[..n] <==> r in multiset(published[..n]);
  }

  function IdleRequests(phase: map<Req, Phase>): set<Req> {
    set r | r in phase && phase[r] == Idle
  }

  /** The steps still to come: six for an idle request, five once the connector holds it, and then the two of each
      listener. */
  function Measure(p: Plane): nat {
    6 * |IdleRequests(p.phase)| + (if p.connector.Some? then 5 else 0) + 2 * |p.stateQ| + 2 * |p.dataQ| +
    (if p.stateOut.Some? then 1 else 0) + if p.dataOut.Some? then 1 else 0
  }

  lemma IdleAfter(phase: map<Req, Phase>, r: Req, next: Phase)
    requires r in phase && next != Idle
    ensures IdleRequests(phase[r := next]) == IdleRequests(phase) - {r}
  {
  }

  lemma MeasureDecreases(out: map<Req, Outcome>, p: Plane, step: Step)
    requires p.phase.Keys == out.Keys && Enabled(p, step)
    ensures Measure(Next(out, p, step)) < Measure(p)
  {
    match step
    case Submit(r) => IdleAfter(p.phase, r, AwaitState);
    case ReplyState => IdleAfter(p.phase, p.stateOut.value, Next(out, p, step).phase[p.stateOut.value]);
    case ReplyData => IdleAfter(p.phase, p.dataOut.value, Next(out, p, step).phase[p.dataOut.value]);
    case _ =>
  }

  /** No run takes more than six steps per request; so, without a state-side failure, every request completes. */
  lemma {:induction false} RunsAreBounded(out: map<Req, Outcome>, planes: seq<Plane>, steps: seq<Step>, i: nat)
    requires Run(out, planes, steps) && i < |planes|
    ensures i + Measure(planes[i]) <= 6 * |out|
    decreases i
  {
    if i == 0 {
      assert IdleRequests(planes[0].phase) == out.Keys;
    } else {
      RunsAreBounded(out, planes, steps, i - 1);
      assert Enabled(planes[i - 1], steps[i - 1]) && planes[i - 1 + 1] == Next(out, planes[i - 1], steps[i - 1]);
      MeasureDecreases(out, planes[i - 1], steps[i - 1]);
    }
  }
}
