/** A join of the serialised protocol (`Membership`) is the sequence of a join's steps (`Overlap`) with nothing in
    between. */
module SerialJoin {
  import opened Base64
  import opened Models
  import opened Validator
  import opened GroupStore
  import opened LocalSteps
  import opened Membership
  import opened Overlap
  import opened Convergence
  import JoinCheck

  /** The agent `l` after answering the joiner. */
  ghost function AnsweredNode(cfg: Config, n: Node, l: string, m: Member): Node {
    n.(agent := Subscribed(cfg.topic, n.agent, l, m, cfg.sentKey(m.name, l)))
  }

  /** The first `k` of the listed members have answered. */
  ghost predicate AnsweredNodes(cfg: Config, s1: State, m: Member, list: seq<Member>, k: nat, s: State)
    requires k <= |list|
  {
    s.Keys == s1.Keys &&
    forall y :: y in s1 ==> s[y] == if Named(list[..k], y) then AnsweredNode(cfg, s1[y], y, m) else s1[y]
  }

  /** The answers are the checksums of those members. */
  ghost predicate AnsweredRecord(s1: State, list: seq<Member>, k: nat, r1: Joining, r: Joining)
    requires k <= |list|
  {
    r == r1.(answers := r.answers, held := r.held) &&
    (forall l :: l in r.answers <==> Named(list[..k], l)) &&
    forall l :: l in r.answers ==>
      l in s1 && s1[l].agent.group.Some? && r.answers[l] == s1[l].agent.group.value.checksum
  }

  ghost predicate Answered(cfg: Config, w1: World, m: Member, list: seq<Member>, k: nat, w: World)
    requires k <= |list| && m.name in w1.joining
  {
    AnsweredNodes(cfg, w1.nodes, m, list, k, w.nodes) && m.name in w.joining &&
    w.joining == w1.joining[m.name := w.joining[m.name]] &&
    AnsweredRecord(w1.nodes, list, k, w1.joining[m.name], w.joining[m.name])
  }

  /** Everybody on the list holds the group with itself. */
  ghost predicate AllHold(w: World, m: Member, list: seq<Member>) {
    UniqueLabels(list) && forall i :: 0 <= i < |list| ==> Holds(w, m, list[i])
  }

  ghost predicate Holds(w: World, m: Member, e: Member) {
    e.name != m.name && e.active && e.name in w.nodes && HasTopic(w.nodes[e.name].agent) &&
      e.name in View(w.nodes[e.name])
  }

  ghost predicate Asks(w1: World, m: Member, list: seq<Member>) {
    JoiningAt(w1, m.name, Asking) && AllHold(w1, m, list) &&
    w1.joining[m.name].list == list && w1.joining[m.name].m == m
  }

  lemma NamedNext(list: seq<Member>, k: nat)
    requires k < |list|
    ensures forall y :: Named(list[..k + 1], y) <==> Named(list[..k], y) || y == list[k].name
  {
    assert list[..k + 1] == list[..k] + [list[k]];
  }

  lemma NotNamedYet(w1: World, m: Member, list: seq<Member>, k: nat)
    requires AllHold(w1, m, list) && k < |list|
    ensures !Named(list[..k], list[k].name) && !Named(list[..k], m.name)
  {
  }

  lemma NextPossible(cfg: Config, w1: World, m: Member, list: seq<Member>, k: nat, w: World)
    requires k < |list| && Asks(w1, m, list) && Answered(cfg, w1, m, list, k, w)
    ensures Possible(cfg, w, Answer(m.name, list[k].name))
    ensures w.joining[m.name].m == m && list[k].name in w1.nodes && w.nodes[list[k].name] == w1.nodes[list[k].name]
    ensures w1.nodes[list[k].name].agent.group.Some?
  {
    NotNamedYet(w1, m, list, k);
    assert Holds(w1, m, list[k]) && list[k] in list;
  }

  lemma NextNodes(cfg: Config, w: World, s1: State, m: Member, list: seq<Member>, k: nat)
    requires k < |list| && Possible(cfg, w, Answer(m.name, list[k].name)) && w.joining[m.name].m == m
    requires AnsweredNodes(cfg, s1, m, list, k, w.nodes) && w.nodes[list[k].name] == s1[list[k].name]
    ensures AnsweredNodes(cfg, s1, m, list, k + 1, After(cfg, w, Answer(m.name, list[k].name)).nodes)
  {
    var act := Answer(m.name, list[k].name);
    NamedNext(list, k);
    forall y | y in s1
      ensures After(cfg, w, act).nodes[y] == if Named(list[..k + 1], y) then AnsweredNode(cfg, s1[y], y, m) else s1[y]
    {
      NodeOfAfter(cfg, w, act, y);
    }
  }

  lemma NextRecord(cfg: Config, w: World, s1: State, x: string, list: seq<Member>, k: nat, r1: Joining)
    requires k < |list| && Possible(cfg, w, Answer(x, list[k].name)) && AnsweredRecord(s1, list, k, r1, w.joining[x])
    requires list[k].name in s1 && w.nodes[list[k].name] == s1[list[k].name] && s1[list[k].name].agent.group.Some?
    ensures var joining' := JoiningAfter(cfg, w, Answer(x, list[k].name));
            x in joining' && joining' == w.joining[x := joining'[x]] && AnsweredRecord(s1, list, k + 1, r1, joining'[x])
  {
    NamedNext(list, k);
  }

  lemma NextAnswer(cfg: Config, w1: World, m: Member, list: seq<Member>, k: nat, w: World)
    requires k < |list| && Asks(w1, m, list) && Answered(cfg, w1, m, list, k, w)
    ensures Possible(cfg, w, Answer(m.name, list[k].name))
    ensures Answered(cfg, w1, m, list, k + 1, After(cfg, w, Answer(m.name, list[k].name)))
  {
    NextPossible(cfg, w1, m, list, k, w);
    NextNodes(cfg, w, w1.nodes, m, list, k);
    NextRecord(cfg, w, w1.nodes, m.name, list, k, w1.joining[m.name]);
  }

  lemma {:induction false} AllAnswer(cfg: Config, w1: World, m: Member, list: seq<Member>, k: nat)
    returns (worlds: seq<World>, acts: seq<Act>)
    requires k <= |list| && Asks(w1, m, list)
    requires w1.joining[m.name].answers == map[] && w1.joining[m.name].held == map[]
    ensures Segment(cfg, worlds, acts) && worlds[0] == w1 && Answered(cfg, w1, m, list, k, worlds[|acts|])
    ensures forall act :: act in acts ==> act.Answer? && act.x == m.name
  {
    if k == 0 {
      worlds, acts := [w1], [];
      NoneAnswered(cfg, w1, m, list);
    } else {
      worlds, acts := AllAnswer(cfg, w1, m, list, k - 1);
      worlds, acts := OneMoreAnswer(cfg, w1, m, list, k - 1, worlds, acts);
    }
  }

  lemma OneMoreAnswer(cfg: Config, w1: World, m: Member, list: seq<Member>, k: nat, worlds: seq<World>, acts: seq<Act>)
    returns (worlds': seq<World>, acts': seq<Act>)
    requires k < |list| && Asks(w1, m, list) && Segment(cfg, worlds, acts) &&
             Answered(cfg, w1, m, list, k, worlds[|acts|])
    ensures Segment(cfg, worlds', acts') && worlds'[0] == worlds[0] &&
            Answered(cfg, w1, m, list, k + 1, worlds'[|acts'|])
    ensures acts' == acts + [Answer(m.name, list[k].name)]
  {
    NextAnswer(cfg, w1, m, list, k, worlds[|acts|]);
    worlds', acts' := Extended(cfg, worlds, acts, Answer(m.name, list[k].name));
  }

  lemma NoneAnswered(cfg: Config, w1: World, m: Member, list: seq<Member>)
    requires Asks(w1, m, list) && w1.joining[m.name].answers == map[] && w1.joining[m.name].held == map[]
    ensures Answered(cfg, w1, m, list, 0, w1)
  {
  }

  lemma ListIsHeld(cfg: Config, s: State, m: Member, acceptor: string, list: seq<Member>, i: nat)
    requires Inv(cfg, s) && Enabled(cfg, s, Join(m, acceptor, list)) && i < |list|
    ensures var l := list[i].name;
            l != m.name && list[i].active && l in s && HasTopic(s[l].agent) && l in View(s[l])
  {
    JoinFacts(cfg, s, m, acceptor, list);
    assert list[i] in list;
    OnRoster(cfg, s, list[i].name);
    assert NodeOk(cfg, s[list[i].name], list[i].name, Roster(s));
  }

  lemma ListHeldBy(cfg: Config, w: World, m: Member, acceptor: string, list: seq<Member>)
    requires Inv(cfg, w.nodes) && Enabled(cfg, w.nodes, Join(m, acceptor, list))
    ensures AllHold(w, m, list)
  {
    forall i | 0 <= i < |list| ensures Holds(w, m, list[i]) {
      ListIsHeld(cfg, w.nodes, m, acceptor, list, i);
    }
  }

  lemma ReadPossible(cfg: Config, w: World, m: Member, acceptor: string, list: seq<Member>)
    requires Inv(cfg, w.nodes) && Enabled(cfg, w.nodes, Join(m, acceptor, list)) && m.name !in w.joining
    ensures Possible(cfg, w, ReadList(m, acceptor, list))
    ensures w.nodes[m.name] == Node(Agent(None, map[], multiset{}), {})
  {
    OnRoster(cfg, w.nodes, acceptor);
    OnRoster(cfg, w.nodes, m.name);
    assert NodeOk(cfg, w.nodes[m.name], m.name, Roster(w.nodes));
    assert acceptor in View(w.nodes[acceptor]);
  }

  /** The joiner's state while it asks the members. */
  ghost function Asker(gp: GroupParams): Node {
    Node(Agent(Some(EMPTY.(params := Some(gp))), map[], multiset{}), {})
  }

  /** The world after the joiner has read the list. */
  lemma AfterReading(cfg: Config, w: World, m: Member, acceptor: string, list: seq<Member>)
    requires Possible(cfg, w, ReadList(m, acceptor, list))
    requires w.nodes[m.name] == Node(Agent(None, map[], multiset{}), {})
    ensures var w1 := After(cfg, w, ReadList(m, acceptor, list));
            var g := w.nodes[acceptor].agent.group.value;
            w1.joining ==
              w.joining[m.name := Joining(m, acceptor, g.params.value, g.members, list, map[], map[], Asking)] &&
            w1.nodes == w.nodes[m.name := Asker(g.params.value)]
  {
    var w1 := After(cfg, w, ReadList(m, acceptor, list));
    forall y | y in w.nodes ensures w1.nodes[y] == NodeAfter(cfg, w, ReadList(m, acceptor, list), y) {
      NodeOfAfter(cfg, w, ReadList(m, acceptor, list), y);
    }
  }

  lemma StillAllHold(w: World, w1: World, m: Member, list: seq<Member>, n: Node)
    requires AllHold(w, m, list) && w1.nodes == w.nodes[m.name := n]
    ensures AllHold(w1, m, list)
  {
  }

  /** The rest of the join: the check with the connecting, entering, and announcing. */
  lemma Finish(cfg: Config, worlds: seq<World>, acts: seq<Act>, x: string)
    returns (worlds': seq<World>, acts': seq<Act>)
    requires Segment(cfg, worlds, acts) && Possible(cfg, worlds[|acts|], Check(x))
    requires var w := worlds[|acts|]; w.nodes[x] == Asker(w.joining[x].params) && w.joining[x].m.name == x
    ensures Segment(cfg, worlds', acts') && worlds'[0] == worlds[0]
    ensures acts' == acts + [Check(x)] + [Enter(x)] + [Announce(x)]
    ensures worlds'[|acts| + 1] == After(cfg, worlds[|acts|], Check(x))
    ensures var w, w' := worlds[|acts|], worlds'[|acts'|];
            w'.joining == w.joining - {x} && w'.nodes.Keys == w.nodes.Keys &&
            forall y :: y in w.nodes ==> w'.nodes[y] == Finished(cfg, w.nodes[y], y, x, w.joining[x])
  {
    var w := worlds[|acts|];
    var r := w.joining[x];
    var w1 := After(cfg, w, Check(x));
    CheckedNode(cfg, w, x);
    worlds', acts' := Extended(cfg, worlds, acts, Check(x));
    var w2 := After(cfg, w1, Enter(x));
    EnteredNode(cfg, w1, x, w.nodes[x].agent, r);
    worlds', acts' := Extended(cfg, worlds', acts', Enter(x));
    worlds', acts' := Extended(cfg, worlds', acts', Announce(x));
    forall y | y in w.nodes ensures After(cfg, w2, Announce(x)).nodes[y] == Finished(cfg, w.nodes[y], y, x, r) {
      FinishedNode(cfg, w, x, y);
    }
    FinishedJoining(cfg, w, x);
  }

  lemma FinishedNode(cfg: Config, w: World, x: string, y: string)
    requires Possible(cfg, w, Check(x)) && y in w.nodes
    requires w.nodes[x] == Asker(w.joining[x].params) && w.joining[x].m.name == x
    ensures var w1 := After(cfg, w, Check(x));
            Possible(cfg, w1, Enter(x)) &&
            var w2 := After(cfg, w1, Enter(x));
            Possible(cfg, w2, Announce(x)) && y in After(cfg, w2, Announce(x)).nodes &&
            After(cfg, w2, Announce(x)).nodes[y] == Finished(cfg, w.nodes[y], y, x, w.joining[x])
  {
    var r, w1 := w.joining[x], After(cfg, w, Check(x));
    CheckedNode(cfg, w, x);
    EnteredNode(cfg, w1, x, w.nodes[x].agent, r);
    var w2 := After(cfg, w1, Enter(x));
    NodeOfAfter(cfg, w, Check(x), y);
    NodeOfAfter(cfg, w1, Enter(x), y);
    NodeOfAfter(cfg, w2, Announce(x), y);
  }

  lemma FinishedJoining(cfg: Config, w: World, x: string)
    requires Possible(cfg, w, Check(x)) && w.nodes[x] == Asker(w.joining[x].params) && w.joining[x].m.name == x
    ensures var w1 := After(cfg, w, Check(x));
            Possible(cfg, w1, Enter(x)) &&
            var w2 := After(cfg, w1, Enter(x));
            Possible(cfg, w2, Announce(x)) && After(cfg, w2, Announce(x)).joining == w.joining - {x} &&
            After(cfg, w2, Announce(x)).nodes.Keys == w.nodes.Keys
  {
    CheckedNode(cfg, w, x);
    EnteredNode(cfg, After(cfg, w, Check(x)), x, w.nodes[x].agent, w.joining[x]);
  }

  /** A node after the rest of the join of `x`. */
  ghost function Finished(cfg: Config, n: Node, y: string, x: string, r: Joining): Node {
    if y == x then Node(Joined(cfg.h, cfg.topic, Agent(None, map[], multiset{}), r.params, r.list, r.m,
                               JoinerKeys(cfg, x)), {})
    else if y in Merged(map[], r.list + [r.m]) then Tell(n, r.m)
    else n
  }

  lemma CheckedNode(cfg: Config, w: World, x: string)
    requires Possible(cfg, w, Check(x)) && w.nodes[x] == Asker(w.joining[x].params)
    ensures var r, w1 := w.joining[x], After(cfg, w, Check(x));
            Possible(cfg, w1, Enter(x)) && w1.joining == w.joining[x := r.(stage := Checked)] &&
            w1.nodes[x] ==
              Node(ConnectedAll(cfg.topic, w.nodes[x].agent, x, r.params.mode, r.m.publisher, r.list,
                                JoinerKeys(cfg, x)), {}) &&
            w1.nodes[x].agent.group == w.nodes[x].agent.group
  {
    NodeOfAfter(cfg, w, Check(x), x);
    ConnectingKeepsNode(cfg, w.nodes[x], x, w.joining[x]);
  }

  lemma EnteredNode(cfg: Config, w1: World, x: string, asker: Agent, r: Joining)
    requires Possible(cfg, w1, Enter(x)) && x == r.m.name && asker == Asker(r.params).agent
    requires w1.joining[x] == r.(stage := Checked)
    requires w1.nodes[x] ==
             Node(ConnectedAll(cfg.topic, asker, x, r.params.mode, r.m.publisher, r.list, JoinerKeys(cfg, x)), {})
    ensures var w2 := After(cfg, w1, Enter(x));
            w2.nodes[x].agent ==
              Joined(cfg.h, cfg.topic, Agent(None, map[], multiset{}), r.params, r.list, r.m, JoinerKeys(cfg, x)) &&
            Possible(cfg, w2, Announce(x)) && View(w2.nodes[x]) == Merged(map[], r.list + [r.m])
  {
    ConnectedAllGroup(cfg.topic, Agent(None, map[], multiset{}), asker.group, x, r.params.mode, r.m.publisher, r.list,
                      JoinerKeys(cfg, x));
    assert Agent(None, map[], multiset{}).(group := asker.group) == asker;
    MergedKeyed(map[], r.list + [r.m]);
    NodeOfAfter(cfg, w1, Enter(x), x);
  }

  lemma ConsistentAnswers(cfg: Config, s: State, m: Member, acceptor: string, list: seq<Member>, s1: State, r1: Joining,
                          r: Joining)
    requires Inv(cfg, s) && Enabled(cfg, s, Join(m, acceptor, list))
    requires forall l :: l in s && l != m.name ==> l in s1 && s1[l] == s[l]
    requires AnsweredRecord(s1, list, |list|, r1, r)
    ensures s[acceptor].agent.group.value.params.value.joinConsistent ==>
              JoinCheck.Consistent(cfg.h, acceptor, list, r.answers)
  {
    JoinFacts(cfg, s, m, acceptor, list);
    assert list[..|list|] == list;
    if s[acceptor].agent.group.value.params.value.joinConsistent && |list| > 1 {
      forall e | e in list && e.active && e.name != acceptor
        ensures e.name in r.answers && r.answers[e.name] == Checksum(cfg.h, list)
      {
        var i :| 0 <= i < |list| && list[i] == e;
        assert Named(list, e.name);
        ListIsHeld(cfg, s, m, acceptor, list, i);
        assert e.name in Answers(s) && Answers(s)[e.name] == Checksum(cfg.h, list);
      }
    }
  }

  /** A serialised join is the steps of the join with nothing in between: reading, everybody's answer, the check,
      entering and announcing lead to the state of the serialised protocol. */
  lemma SerialisedJoin(cfg: Config, w: World, m: Member, acceptor: string, list: seq<Member>)
    returns (worlds: seq<World>, answers: seq<Act>)
    requires Inv(cfg, w.nodes) && Enabled(cfg, w.nodes, Join(m, acceptor, list)) && m.name !in w.joining
    ensures forall act :: act in answers ==> act.Answer? && act.x == m.name
    ensures var acts :=
              [ReadList(m, acceptor, list)] + answers + [Check(m.name)] + [Enter(m.name)] + [Announce(m.name)];
            Segment(cfg, worlds, acts) && worlds[0] == w && worlds[|acts|].joining == w.joining &&
            worlds[|acts|].nodes == Next(cfg, w.nodes, Join(m, acceptor, list)) &&
            forall j :: 0 <= j < |acts| ==> Orderly(worlds[j], acts[j])
  {
    var read := ReadList(m, acceptor, list);
    var w1 := JoinReads(cfg, w, m, acceptor, list);
    worlds, answers := AllAnswer(cfg, w1, m, list, |list|);
    var w2 := worlds[|answers|];
    CheckPossible(cfg, w, m, acceptor, list, w1, w2);
    worlds := Prefixed(cfg, w, read, worlds, answers);
    var acts;
    worlds, acts := Finish(cfg, worlds, [read] + answers, m.name);
    SameNodes(cfg, w, m, acceptor, list, w1, w2, worlds[|acts|].nodes);
    RemovedAgain(w.joining, m.name, w1.joining[m.name], w2.joining[m.name]);
    JoinerIsNew(cfg, w, m, acceptor, list);
    EntersOrderly(cfg, w, m, acceptor, list, w1, w2);
    OnlyEntering(cfg, worlds, acts, answers, read, m.name);
  }

  /** Of the steps of a join only entering has to be orderly. */
  lemma OnlyEntering(cfg: Config, worlds: seq<World>, acts: seq<Act>, answers: seq<Act>, read: Act, x: string)
    requires read.ReadList? && forall act :: act in answers ==> act.Answer?
    requires acts == [read] + answers + [Check(x)] + [Enter(x)] + [Announce(x)] && |worlds| == |acts| + 1
    requires Orderly(worlds[|answers| + 2], Enter(x))
    ensures forall j :: 0 <= j < |acts| ==> Orderly(worlds[j], acts[j])
  {
    forall j | 0 <= j < |acts| ensures Orderly(worlds[j], acts[j]) {
      if 1 <= j <= |answers| {
        assert acts[j] == answers[j - 1] && answers[j - 1] in answers;
      }
    }
  }

  /** Nothing but keys and filters changes until the joiner enters. */
  lemma AnswersKeepViews(cfg: Config, w: World, m: Member, acceptor: string, list: seq<Member>, w1: World, w2: World,
                         y: string)
    requires y in w.nodes && m.name in w.nodes && w.nodes[m.name] == Node(Agent(None, map[], multiset{}), {})
    requires HasRead(w, m, acceptor, list, w1) && AnsweredNodes(cfg, w1.nodes, m, list, |list|, w2.nodes)
    requires m.name in w2.nodes && m.name in w2.joining && w2.nodes[m.name] == Asker(w2.joining[m.name].params)
    ensures y in w2.nodes && View(w2.nodes[y]) == View(w.nodes[y]) && w2.nodes[y].inbox == w.nodes[y].inbox
  {
    if y != m.name {
      assert y in w1.nodes && w1.nodes[y] == w.nodes[y];
    }
  }

  lemma ViewsUntouched(cfg: Config, w: World, m: Member, acceptor: string, list: seq<Member>, w1: World, w2: World,
                       y: string)
    requires y in w.nodes && m.name in w.nodes && w.nodes[m.name] == Node(Agent(None, map[], multiset{}), {})
    requires HasRead(w, m, acceptor, list, w1) && AnsweredNodes(cfg, w1.nodes, m, list, |list|, w2.nodes)
    requires Possible(cfg, w2, Check(m.name)) && w2.nodes[m.name] == Asker(w2.joining[m.name].params)
    ensures var w3 := After(cfg, w2, Check(m.name));
            y in w3.nodes && View(w3.nodes[y]) == View(w.nodes[y]) && w3.nodes[y].inbox == w.nodes[y].inbox
  {
    AnswersKeepViews(cfg, w, m, acceptor, list, w1, w2, y);
    ViewAndInbox(cfg, w2, Check(m.name), y);
  }

  /** What a serialised joiner enters is the roster of that moment. */
  lemma EntersOrderly(cfg: Config, w: World, m: Member, acceptor: string, list: seq<Member>, w1: World, w2: World)
    requires m.name in w.nodes && w.nodes[m.name] == Node(Agent(None, map[], multiset{}), {})
    requires forall y :: y in w.nodes ==> forall i :: i in w.nodes[y].inbox ==> i.name != m.name
    requires Lists(list, Roster(w.nodes)) && Keyed(Roster(w.nodes))
    requires HasRead(w, m, acceptor, list, w1) && Answered(cfg, w1, m, list, |list|, w2)
    requires Possible(cfg, w2, Check(m.name)) && w2.nodes[m.name] == Asker(w2.joining[m.name].params)
    ensures Orderly(After(cfg, w2, Check(m.name)), Enter(m.name))
  {
    AllViewsUntouched(cfg, w, m, acceptor, list, w1, w2);
    ListStays(cfg, w, m, acceptor, list, w1, w2);
    SameViewsOrderly(w.nodes, After(cfg, w2, Check(m.name)), m, list);
  }

  lemma AllViewsUntouched(cfg: Config, w: World, m: Member, acceptor: string, list: seq<Member>, w1: World, w2: World)
    requires m.name in w.nodes && w.nodes[m.name] == Node(Agent(None, map[], multiset{}), {})
    requires HasRead(w, m, acceptor, list, w1) && Answered(cfg, w1, m, list, |list|, w2)
    requires Possible(cfg, w2, Check(m.name)) && w2.nodes[m.name] == Asker(w2.joining[m.name].params)
    ensures var w3 := After(cfg, w2, Check(m.name));
            w3.nodes.Keys == w.nodes.Keys &&
            forall y :: y in w.nodes ==> View(w3.nodes[y]) == View(w.nodes[y]) && w3.nodes[y].inbox == w.nodes[y].inbox
  {
    KeysStay(cfg, w, m, acceptor, list, w1, w2);
    var w3 := After(cfg, w2, Check(m.name));
    forall y | y in w.nodes
      ensures y in w3.nodes && View(w3.nodes[y]) == View(w.nodes[y]) && w3.nodes[y].inbox == w.nodes[y].inbox
    {
      ViewsUntouched(cfg, w, m, acceptor, list, w1, w2, y);
    }
  }

  lemma JoinerIsNew(cfg: Config, w: World, m: Member, acceptor: string, list: seq<Member>)
    requires Inv(cfg, w.nodes) && Enabled(cfg, w.nodes, Join(m, acceptor, list)) && m.name !in w.joining
    ensures w.nodes[m.name] == Node(Agent(None, map[], multiset{}), {})
    ensures forall y :: y in w.nodes ==> forall i :: i in w.nodes[y].inbox ==> i.name != m.name
    ensures Lists(list, Roster(w.nodes)) && Keyed(Roster(w.nodes))
  {
    JoinFacts(cfg, w.nodes, m, acceptor, list);
    ReadPossible(cfg, w, m, acceptor, list);
    assert NodeOk(cfg, w.nodes[m.name], m.name, Roster(w.nodes));
  }

  lemma ListStays(cfg: Config, w: World, m: Member, acceptor: string, list: seq<Member>, w1: World, w2: World)
    requires HasRead(w, m, acceptor, list, w1) && Answered(cfg, w1, m, list, |list|, w2)
    requires Possible(cfg, w2, Check(m.name))
    ensures m.name in JoiningAfter(cfg, w2, Check(m.name))
    ensures JoiningAfter(cfg, w2, Check(m.name))[m.name].list == list
    ensures After(cfg, w2, Check(m.name)).nodes.Keys == w2.nodes.Keys
  {
    assert w1.joining[m.name].list == list;
  }

  lemma SameViewsOrderly(s: State, w3: World, m: Member, list: seq<Member>)
    requires w3.nodes.Keys == s.Keys && m.name in s && View(s[m.name]) == map[] && s[m.name].inbox == {}
    requires forall y :: y in s ==> View(w3.nodes[y]) == View(s[y]) && w3.nodes[y].inbox == s[y].inbox
    requires forall y :: y in s ==> forall i :: i in s[y].inbox ==> i.name != m.name
    requires Lists(list, Roster(s)) && Keyed(Roster(s)) && m.name in w3.joining && w3.joining[m.name].list == list
    ensures Orderly(w3, Enter(m.name))
  {
    RosterOfViews(s, w3.nodes);
    MergedLists(list, Roster(s));
  }

  lemma RosterOfViews(s: State, s': State)
    requires s'.Keys == s.Keys && forall y :: y in s ==> View(s'[y]) == View(s[y])
    ensures Roster(s') == Roster(s)
  {
  }

  /** `w1` is the world after `m` has read the acceptor's list. */
  ghost predicate HasRead(w: World, m: Member, acceptor: string, list: seq<Member>, w1: World) {
    acceptor in w.nodes && HasTopic(w.nodes[acceptor].agent) &&
    var g := w.nodes[acceptor].agent.group.value;
    w1.nodes == w.nodes[m.name := Asker(g.params.value)] && Asks(w1, m, list) &&
    w1.joining == w.joining[m.name := Joining(m, acceptor, g.params.value, g.members, list, map[], map[], Asking)]
  }

  lemma JoinReads(cfg: Config, w: World, m: Member, acceptor: string, list: seq<Member>) returns (w1: World)
    requires Inv(cfg, w.nodes) && Enabled(cfg, w.nodes, Join(m, acceptor, list)) && m.name !in w.joining
    ensures Possible(cfg, w, ReadList(m, acceptor, list)) && w1 == After(cfg, w, ReadList(m, acceptor, list))
    ensures HasRead(w, m, acceptor, list, w1)
  {
    ReadPossible(cfg, w, m, acceptor, list);
    AfterReading(cfg, w, m, acceptor, list);
    w1 := After(cfg, w, ReadList(m, acceptor, list));
    ListHeldBy(cfg, w, m, acceptor, list);
    StillAllHold(w, w1, m, list, w1.nodes[m.name]);
    AskerIsJoining(w, w1, m, w.nodes[acceptor].agent.group.value.params.value);
  }

  lemma AskerIsJoining(w: World, w1: World, m: Member, gp: GroupParams)
    requires w1.nodes == w.nodes[m.name := Asker(gp)] && m.name in w1.joining && w1.joining[m.name].stage == Asking
    ensures JoiningAt(w1, m.name, Asking)
  {
  }

  lemma Prefixed(cfg: Config, w: World, act: Act, worlds: seq<World>, acts: seq<Act>) returns (worlds': seq<World>)
    requires Possible(cfg, w, act) && Segment(cfg, worlds, acts) && worlds[0] == After(cfg, w, act)
    ensures Segment(cfg, worlds', [act] + acts) && worlds'[0] == w && worlds'[|acts| + 1] == worlds[|acts|]
  {
    worlds' := [w] + worlds;
    var acts' := [act] + acts;
    forall i | 0 <= i < |acts'|
      ensures Possible(cfg, worlds'[i], acts'[i]) && worlds'[i + 1] == After(cfg, worlds'[i], acts'[i])
    {
      if i > 0 {
        assert acts'[i] == acts[i - 1] && worlds'[i] == worlds[i - 1] && worlds'[i + 1] == worlds[i - 1 + 1];
      }
    }
  }

  lemma CheckPossible(cfg: Config, w: World, m: Member, acceptor: string, list: seq<Member>, w1: World, w2: World)
    requires Inv(cfg, w.nodes) && Enabled(cfg, w.nodes, Join(m, acceptor, list))
    requires HasRead(w, m, acceptor, list, w1) && Answered(cfg, w1, m, list, |list|, w2)
    ensures Possible(cfg, w2, Check(m.name)) && w2.nodes[m.name] == Asker(w2.joining[m.name].params)
    ensures w2.joining[m.name].m == m
  {
    OthersSame(w.nodes, w1.nodes, m.name, w1.nodes[m.name]);
    ConsistentAnswers(cfg, w.nodes, m, acceptor, list, w1.nodes, w1.joining[m.name], w2.joining[m.name]);
    CheckOfAnswers(cfg, w, m, acceptor, list, w1, w2);
  }

  lemma OthersSame(s: State, s1: State, x: string, n: Node)
    requires s1 == s[x := n]
    ensures forall l :: l in s && l != x ==> l in s1 && s1[l] == s[l]
  {
  }

  lemma CheckOfAnswers(cfg: Config, w: World, m: Member, acceptor: string, list: seq<Member>, w1: World, w2: World)
    requires HasRead(w, m, acceptor, list, w1) && Answered(cfg, w1, m, list, |list|, w2)
    requires w.nodes[acceptor].agent.group.value.params.value.joinConsistent ==>
               JoinCheck.Consistent(cfg.h, acceptor, list, w2.joining[m.name].answers)
    ensures Possible(cfg, w2, Check(m.name)) && w2.nodes[m.name] == Asker(w2.joining[m.name].params)
    ensures w2.joining[m.name].m == m
  {
    JoinerUntouched(cfg, w1, m, list, w2.nodes);
  }

  lemma JoinerUntouched(cfg: Config, w1: World, m: Member, list: seq<Member>, s2: State)
    requires AllHold(w1, m, list) && m.name in w1.nodes && AnsweredNodes(cfg, w1.nodes, m, list, |list|, s2)
    ensures m.name in s2 && s2[m.name] == w1.nodes[m.name]
  {
    assert list[..|list|] == list;
    assert forall i :: 0 <= i < |list| ==> Holds(w1, m, list[i]);
  }

  lemma SameNodes(cfg: Config, w: World, m: Member, acceptor: string, list: seq<Member>, w1: World, w2: World,
                  s': State)
    requires Inv(cfg, w.nodes) && Enabled(cfg, w.nodes, Join(m, acceptor, list))
    requires HasRead(w, m, acceptor, list, w1) && Answered(cfg, w1, m, list, |list|, w2)
    requires s'.Keys == w2.nodes.Keys
    requires forall y :: y in w2.nodes ==> s'[y] == Finished(cfg, w2.nodes[y], y, m.name, w2.joining[m.name])
    ensures s' == Next(cfg, w.nodes, Join(m, acceptor, list))
  {
    JoinFacts(cfg, w.nodes, m, acceptor, list);
    FinishedNodes(cfg, w, m, acceptor, list, w1, w2);
    NextOfJoin(cfg, w.nodes, m, acceptor, list);
    SameMap(s', Next(cfg, w.nodes, Join(m, acceptor, list)));
  }

  lemma FinishedNodes(cfg: Config, w: World, m: Member, acceptor: string, list: seq<Member>, w1: World, w2: World)
    requires Inv(cfg, w.nodes) && Enabled(cfg, w.nodes, Join(m, acceptor, list))
    requires HasRead(w, m, acceptor, list, w1) && Answered(cfg, w1, m, list, |list|, w2)
    ensures w2.nodes.Keys == w.nodes.Keys
    ensures forall y :: y in w.nodes ==>
              Keyed(View(w.nodes[y])) &&
              Finished(cfg, w2.nodes[y], y, m.name, w2.joining[m.name]) ==
                JoinedNode(cfg, w.nodes[y], y, cfg.params, Roster(w.nodes), m, list)
  {
    KeysStay(cfg, w, m, acceptor, list, w1, w2);
    forall y | y in w.nodes
      ensures Keyed(View(w.nodes[y])) &&
              Finished(cfg, w2.nodes[y], y, m.name, w2.joining[m.name]) ==
                JoinedNode(cfg, w.nodes[y], y, cfg.params, Roster(w.nodes), m, list)
    {
      FinishedOne(cfg, w, m, acceptor, list, w1, w2, y);
    }
  }

  lemma KeysStay(cfg: Config, w: World, m: Member, acceptor: string, list: seq<Member>, w1: World, w2: World)
    requires m.name in w.nodes && HasRead(w, m, acceptor, list, w1) && Answered(cfg, w1, m, list, |list|, w2)
    ensures w2.nodes.Keys == w.nodes.Keys
  {
  }

  lemma FinishedOne(cfg: Config, w: World, m: Member, acceptor: string, list: seq<Member>, w1: World, w2: World,
                    y: string)
    requires Inv(cfg, w.nodes) && Enabled(cfg, w.nodes, Join(m, acceptor, list)) && y in w.nodes
    requires HasRead(w, m, acceptor, list, w1) && Answered(cfg, w1, m, list, |list|, w2)
    ensures Keyed(View(w.nodes[y])) && y in w2.nodes
    ensures Finished(cfg, w2.nodes[y], y, m.name, w2.joining[m.name]) ==
              JoinedNode(cfg, w.nodes[y], y, cfg.params, Roster(w.nodes), m, list)
  {
    JoinFacts(cfg, w.nodes, m, acceptor, list);
    AnsweredOne(cfg, w1.nodes, m, list, w2.nodes, y);
    SameNode(cfg, w.nodes, m, acceptor, list, y, w2.nodes[y], w2.joining[m.name]);
  }

  lemma SameMap<V>(a: map<string, V>, b: map<string, V>)
    requires a.Keys == b.Keys && forall y :: y in b ==> a[y] == b[y]
    ensures a == b
  {
  }

  lemma RemovedAgain<V>(a: map<string, V>, x: string, u: V, v: V)
    requires x !in a
    ensures a[x := u][x := v] - {x} == a
  {
  }

  lemma AnsweredOne(cfg: Config, s1: State, m: Member, list: seq<Member>, s2: State, y: string)
    requires AnsweredNodes(cfg, s1, m, list, |list|, s2) && y in s1
    ensures y in s2 && s2[y] == if Named(list, y) then AnsweredNode(cfg, s1[y], y, m) else s1[y]
  {
    assert list[..|list|] == list;
  }

  lemma SameNode(cfg: Config, s: State, m: Member, acceptor: string, list: seq<Member>, y: string, n: Node, r: Joining)
    requires Inv(cfg, s) && Enabled(cfg, s, Join(m, acceptor, list)) && y in s
    requires r.list == list && r.m == m && r.params == s[acceptor].agent.group.value.params.value
    requires y != m.name ==> n == if Named(list, y) then AnsweredNode(cfg, s[y], y, m) else s[y]
    ensures Keyed(View(s[y]))
    ensures Finished(cfg, n, y, m.name, r) ==
              JoinedNode(cfg, s[y], y, r.params, s[acceptor].agent.group.value.members, m, list)
  {
    assert NodeOk(cfg, s[y], y, Roster(s));
    JoinFacts(cfg, s, m, acceptor, list);
    MergedNames(map[], list + [m], y);
    assert Named(list + [m], y) <==> Named(list, y) || y == m.name;
    ListedIffMember(list, s[acceptor].agent.group.value.members, y);
    OnRoster(cfg, s, y);
  }

  lemma ListedIffMember(list: seq<Member>, members: map<string, Member>, y: string)
    requires Lists(list, members) && Keyed(members)
    ensures Named(list, y) <==> y in members
  {
    if y in members {
      assert members[y] in list;
      var i :| 0 <= i < |list| && list[i] == members[y];
    }
    if i :| 0 <= i < |list| && list[i].name == y {
      assert list[i] in list;
    }
  }
}
