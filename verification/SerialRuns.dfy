/** Every run of the serialised protocol (`Membership`) is a history of the unserialised one (`Overlap`), and an orderly
    one (`Convergence`). */
module SerialRuns {
  import opened Models
  import opened LocalSteps
  import opened Membership
  import opened Overlap
  import opened Convergence
  import opened SerialJoin

  /** The acts are orderly from world to world. */
  ghost predicate AllOrderly(worlds: seq<World>, acts: seq<Act>) {
    |worlds| == |acts| + 1 && forall j :: 0 <= j < |acts| ==> Orderly(worlds[j], acts[j])
  }

  lemma Joint(cfg: Config, worlds: seq<World>, acts: seq<Act>, worlds2: seq<World>, acts2: seq<Act>)
    returns (worlds': seq<World>)
    requires Segment(cfg, worlds, acts) && Segment(cfg, worlds2, acts2) && worlds[|acts|] == worlds2[0]
    requires AllOrderly(worlds, acts) && AllOrderly(worlds2, acts2)
    ensures Segment(cfg, worlds', acts + acts2) && AllOrderly(worlds', acts + acts2)
    ensures worlds'[0] == worlds[0] && worlds'[|acts + acts2|] == worlds2[|acts2|]
  {
    worlds' := worlds + worlds2[1..];
    var acts' := acts + acts2;
    forall i | 0 <= i < |acts'|
      ensures Possible(cfg, worlds'[i], acts'[i]) && worlds'[i + 1] == After(cfg, worlds'[i], acts'[i])
      ensures Orderly(worlds'[i], acts'[i])
    {
      if i < |acts| {
        assert worlds'[i] == worlds[i] && worlds'[i + 1] == worlds[i + 1] && acts'[i] == acts[i];
      } else {
        var k := i - |acts|;
        assert worlds'[i] == worlds2[k] && worlds'[i + 1] == worlds2[k + 1] && acts'[i] == acts2[k];
      }
    }
  }

  /** The act for an event that is not a join. */
  function ActOf(e: Event): Act
    requires !e.Join?
  {
    match e
    case Create(m) => Found(m)
    case Leave(x) => Depart(x)
    case Deliver(x, m) => Process(x, m)
  }

  lemma SerialStep(cfg: Config, s: State, e: Event)
    requires Inv(cfg, s) && Enabled(cfg, s, e) && !e.Join?
    ensures Possible(cfg, World(s, map[]), ActOf(e)) && Orderly(World(s, map[]), ActOf(e))
    ensures After(cfg, World(s, map[]), ActOf(e)) == World(Next(cfg, s, e), map[])
  {
    match e {
      case Create(m) => SerialCreate(cfg, s, m);
      case Leave(x) => SerialLeave(cfg, s, x);
      case Deliver(x, m) => SerialDeliver(cfg, s, x, m);
    }
    StepIsOrderly(cfg, s, e);
  }

  lemma SerialCreate(cfg: Config, s: State, m: Member)
    requires Inv(cfg, s) && Enabled(cfg, s, Create(m))
    ensures Possible(cfg, World(s, map[]), Found(m))
    ensures After(cfg, World(s, map[]), Found(m)) == World(Next(cfg, s, Create(m)), map[])
  {
    assert NodeOk(cfg, s[m.name], m.name, Roster(s));
    assert After(cfg, World(s, map[]), Found(m)).nodes == Next(cfg, s, Create(m));
  }

  lemma SerialLeave(cfg: Config, s: State, x: string)
    requires Enabled(cfg, s, Leave(x))
    ensures Possible(cfg, World(s, map[]), Depart(x))
    ensures After(cfg, World(s, map[]), Depart(x)) == World(Next(cfg, s, Leave(x)), map[])
  {
    assert After(cfg, World(s, map[]), Depart(x)).nodes == Next(cfg, s, Leave(x));
  }

  lemma SerialDeliver(cfg: Config, s: State, x: string, m: Member)
    requires Inv(cfg, s) && Enabled(cfg, s, Deliver(x, m))
    ensures Possible(cfg, World(s, map[]), Process(x, m))
    ensures After(cfg, World(s, map[]), Process(x, m)) == World(Next(cfg, s, Deliver(x, m)), map[])
  {
    SerialProcess(cfg, s, x, m);
    assert After(cfg, World(s, map[]), Process(x, m)).nodes == Next(cfg, s, Deliver(x, m));
  }

  lemma SerialProcess(cfg: Config, s: State, x: string, m: Member)
    requires Inv(cfg, s) && Enabled(cfg, s, Deliver(x, m))
    ensures Possible(cfg, World(s, map[]), Process(x, m))
  {
    if s[x].agent.group.Some? {
      assert NodeOk(cfg, s[x], x, Roster(s));
      assert x in StatusView(View(s[x]), m);
    }
  }

  lemma StepIsOrderly(cfg: Config, s: State, e: Event)
    requires Inv(cfg, s) && Enabled(cfg, s, e) && !e.Join?
    ensures Orderly(World(s, map[]), ActOf(e))
  {
    match e
    case Create(m) =>
    case Leave(x) =>
      forall y | y in Roster(s) && y != x ensures x in View(s[y]) && y in View(s[x]) {
        KnowEachOther(cfg, s, x, y);
        KnowEachOther(cfg, s, y, x);
      }
    case Deliver(x, m) =>
  }

  lemma KnowEachOther(cfg: Config, s: State, x: string, y: string)
    requires Inv(cfg, s) && NoJoinInProgress(s) && x in s && s[x].agent.group.Some? && y in Roster(s)
    ensures y in View(s[x])
  {
    assert NodeOk(cfg, s[x], x, Roster(s));
  }

  /** One event as a segment. */
  lemma EventAsActs(cfg: Config, s: State, e: Event) returns (worlds: seq<World>, acts: seq<Act>)
    requires Inv(cfg, s) && Enabled(cfg, s, e)
    ensures Segment(cfg, worlds, acts) && AllOrderly(worlds, acts)
    ensures worlds[0] == World(s, map[]) && worlds[|acts|] == World(Next(cfg, s, e), map[])
  {
    match e {
      case Join(m, acceptor, list) => worlds, acts := JoinAsActs(cfg, s, m, acceptor, list);
      case _ => worlds, acts := StepAsActs(cfg, s, e);
    }
  }

  lemma StepAsActs(cfg: Config, s: State, e: Event) returns (worlds: seq<World>, acts: seq<Act>)
    requires Inv(cfg, s) && Enabled(cfg, s, e) && !e.Join?
    ensures Segment(cfg, worlds, acts) && AllOrderly(worlds, acts)
    ensures worlds[0] == World(s, map[]) && worlds[|acts|] == World(Next(cfg, s, e), map[])
  {
    SerialStep(cfg, s, e);
    worlds, acts := OneAct(cfg, World(s, map[]), ActOf(e));
  }

  lemma OneAct(cfg: Config, w: World, act: Act) returns (worlds: seq<World>, acts: seq<Act>)
    requires Possible(cfg, w, act) && Orderly(w, act)
    ensures Segment(cfg, worlds, acts) && AllOrderly(worlds, acts)
    ensures worlds[0] == w && worlds[|acts|] == After(cfg, w, act)
  {
    worlds, acts := [w, After(cfg, w, act)], [act];
  }

  lemma JoinAsActs(cfg: Config, s: State, m: Member, acceptor: string, list: seq<Member>)
    returns (worlds: seq<World>, acts: seq<Act>)
    requires Inv(cfg, s) && Enabled(cfg, s, Join(m, acceptor, list))
    ensures Segment(cfg, worlds, acts) && AllOrderly(worlds, acts)
    ensures worlds[0] == World(s, map[]) && worlds[|acts|] == World(Next(cfg, s, Join(m, acceptor, list)), map[])
  {
    var answers;
    worlds, answers := SerialisedJoin(cfg, World(s, map[]), m, acceptor, list);
    acts := [ReadList(m, acceptor, list)] + answers + [Check(m.name)] + [Enter(m.name)] + [Announce(m.name)];
  }

  lemma EventOfRun(cfg: Config, states: seq<State>, events: seq<Event>, k: nat)
    returns (worlds: seq<World>, acts: seq<Act>)
    requires Run(cfg, states, events) && k < |events|
    ensures Segment(cfg, worlds, acts) && AllOrderly(worlds, acts)
    ensures worlds[0] == World(states[k], map[]) && worlds[|acts|] == World(states[k + 1], map[])
  {
    RunKeepsInv(cfg, states, events, k);
    assert Enabled(cfg, states[k], events[k]) && states[k + 1] == Next(cfg, states[k], events[k]);
    worlds, acts := EventAsActs(cfg, states[k], events[k]);
  }

  /** Each state of a serialised run is that of a world without joins under way in an orderly history: convergence of
      orderly histories covers all serialised runs. */
  lemma {:induction false} SerialisedRunsAreOrderly(cfg: Config, states: seq<State>, events: seq<Event>, i: nat)
    returns (worlds: seq<World>, acts: seq<Act>)
    requires Run(cfg, states, events) && i < |states|
    ensures History(cfg, worlds, acts) && worlds[|acts|] == World(states[i], map[])
    ensures forall j :: 0 <= j < |acts| ==> Orderly(worlds[j], acts[j])
    decreases i
  {
    if i == 0 {
      worlds, acts := [World(states[0], map[])], [];
    } else {
      var worlds1, acts1 := SerialisedRunsAreOrderly(cfg, states, events, i - 1);
      var worlds2, acts2 := EventOfRun(cfg, states, events, i - 1);
      worlds := Joint(cfg, worlds1, acts1, worlds2, acts2);
      acts := acts1 + acts2;
    }
  }
}
