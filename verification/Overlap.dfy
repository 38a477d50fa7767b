/** The group protocol without serialised joins.  A join (`pubsub/agent.go`, lines 160 to 268) is a sequence of steps:
    reading the acceptor's list, the answers of the listed members, the consistency check with the connecting, entering
    the list, and announcing oneself; any steps of other agents may come between them. */
module Overlap {
  import opened Base64
  import opened Models
  import opened Validator
  import opened GroupStore
  import opened LocalSteps
  import opened Membership
  import JoinCheck

  datatype Stage = Asking | Checked | Entered

  /** A join under way: the joiner's record, what it has read from the acceptor, the checksums it has been answered
      with, and, for the statements about it, the member maps that those who answered held then. */
  datatype Joining = Joining(m: Member, acceptor: string, params: GroupParams, view: map<string, Member>,
                             list: seq<Member>, answers: map<string, string>, held: map<string, map<string, Member>>,
                             stage: Stage)

  datatype World = World(nodes: State, joining: map<string, Joining>)

  datatype Act =
    | Found(m: Member)                                         // Create
    | ReadList(m: Member, acceptor: string, list: seq<Member>) // Join, lines 173 to 191
    | Answer(x: string, l: string)                             // subscriptions, for the joiner x
    | Check(x: string)                                         // Join, lines 220 to 251
    | Enter(x: string)                                         // Join, line 253
    | Announce(x: string)                                      // Join, line 262
    | Depart(x: string)                                        // Leave
    | Process(x: string, m: Member)                            // state

  /** An active entry of the list has the label. */
  ghost predicate Listed(list: seq<Member>, l: string) {
    exists m :: m in list && m.active && m.name == l
  }

  ghost predicate JoiningAt(w: World, x: string, stage: Stage) {
    x in w.nodes && HasTopic(w.nodes[x].agent) && x in w.joining && w.joining[x].stage == stage
  }

  /** An agent does one thing at a time; processing the last member's leave would panic. */
  ghost predicate Possible(cfg: Config, w: World, act: Act) {
    match act
    case Found(m) => m.name in w.nodes && m.active && m.name !in w.joining && Keyed(View(w.nodes[m.name]))
    case ReadList(m, acceptor, list) =>
      m.name in w.nodes && m.active && m.name !in w.joining && w.nodes[m.name].agent.group.None? &&
      acceptor in w.nodes && HasTopic(w.nodes[acceptor].agent) &&
      View(w.nodes[acceptor]) != map[] && Lists(list, View(w.nodes[acceptor]))
    case Answer(x, l) =>
      JoiningAt(w, x, Asking) && Listed(w.joining[x].list, l) && l != x && l !in w.joining[x].answers &&
      l in w.nodes && HasTopic(w.nodes[l].agent) && l in View(w.nodes[l])
    case Check(x) =>
      JoiningAt(w, x, Asking) &&
      var r := w.joining[x];
      r.params.joinConsistent ==> JoinCheck.Consistent(cfg.h, r.acceptor, r.list, r.answers)
    case Enter(x) => JoiningAt(w, x, Checked)
    case Announce(x) => JoiningAt(w, x, Entered)
    case Depart(x) => x in w.nodes && HasTopic(w.nodes[x].agent) && x !in w.joining && x in View(w.nodes[x])
    case Process(x, m) =>
      x in w.nodes && m in w.nodes[x].inbox &&
      (w.nodes[x].agent.group.Some? ==> HasTopic(w.nodes[x].agent) && StatusView(View(w.nodes[x]), m) != map[])
  }

  /** What an act does to the agent `y`. */
  ghost function NodeAfter(cfg: Config, w: World, act: Act, y: string): Node
    requires Possible(cfg, w, act) && y in w.nodes
  {
    var n := w.nodes[y];
    match act
    case Found(m) => if y == m.name then CreateNode(cfg, n, m) else n
    case ReadList(m, acceptor, list) =>
      if y == m.name
        then n.(agent := n.agent.(group := Some(EMPTY.(params := w.nodes[acceptor].agent.group.value.params))))
      else n
    case Answer(x, l) =>
      if y == l then n.(agent := Subscribed(cfg.topic, n.agent, l, w.joining[x].m, cfg.sentKey(x, l))) else n
    case Check(x) =>
      var r := w.joining[x];
      if y == x
      then n.(agent := ConnectedAll(cfg.topic, n.agent, x, r.params.mode, r.m.publisher, r.list, JoinerKeys(cfg, x)))
      else n
    case Enter(x) =>
      var r := w.joining[x];
      if y == x then n.(agent := n.agent.(group := Some(Populated(cfg.h, n.agent, r.params, r.list + [r.m])))) else n
    case Announce(x) => if y != x && y in View(w.nodes[x]) then Tell(n, w.joining[x].m) else n
    case Depart(x) => LeftNode(cfg, n, y, View(w.nodes[x]), x)
    case Process(x, m) => if y == x then DeliveredNode(cfg, n, x, m) else n
  }

  ghost function JoiningAfter(cfg: Config, w: World, act: Act): map<string, Joining>
    requires Possible(cfg, w, act)
  {
    match act
    case ReadList(m, acceptor, list) =>
      var g := w.nodes[acceptor].agent.group.value;
      w.joining[m.name := Joining(m, acceptor, g.params.value, g.members, list, map[], map[], Asking)]
    case Answer(x, l) =>
      var r := w.joining[x];
      w.joining[x := r.(answers := r.answers[l := w.nodes[l].agent.group.value.checksum],
                        held := r.held[l := View(w.nodes[l])])]
    case Check(x) => w.joining[x := w.joining[x].(stage := Checked)]
    case Enter(x) => w.joining[x := w.joining[x].(stage := Entered)]
    case Announce(x) => w.joining - {x}
    case _ => w.joining
  }

  ghost function After(cfg: Config, w: World, act: Act): World
    requires Possible(cfg, w, act)
  {
    World(map y | y in w.nodes :: NodeAfter(cfg, w, act, y), JoiningAfter(cfg, w, act))
  }

  ghost predicate Start(cfg: Config, w: World) {
    Init(cfg, w.nodes) && w.joining == map[]
  }

  /** The acts lead from world to world. */
  ghost predicate Segment(cfg: Config, worlds: seq<World>, acts: seq<Act>) {
    |worlds| == |acts| + 1 &&
    forall i :: 0 <= i < |acts| ==> Possible(cfg, worlds[i], acts[i]) && worlds[i + 1] == After(cfg, worlds[i], acts[i])
  }

  ghost predicate History(cfg: Config, worlds: seq<World>, acts: seq<Act>) {
    Segment(cfg, worlds, acts) && Start(cfg, worlds[0])
  }

  lemma Extended(cfg: Config, worlds: seq<World>, acts: seq<Act>, act: Act)
    returns (worlds': seq<World>, acts': seq<Act>)
    requires Segment(cfg, worlds, acts) && Possible(cfg, worlds[|acts|], act)
    ensures Segment(cfg, worlds', acts') && worlds'[0] == worlds[0] && acts' == acts + [act]
    ensures worlds'[|acts'|] == After(cfg, worlds[|acts|], act) && worlds <= worlds'
  {
    worlds', acts' := worlds + [After(cfg, worlds[|acts|], act)], acts + [act];
    forall i | 0 <= i < |acts'|
      ensures Possible(cfg, worlds'[i], acts'[i]) && worlds'[i + 1] == After(cfg, worlds'[i], acts'[i])
    {
      if i < |acts| {
        assert worlds'[i] == worlds[i] && worlds'[i + 1] == worlds[i + 1] && acts'[i] == acts[i];
      }
    }
  }

  // ----------------------------------------------------------------------- views and statuses per act

  ghost function ViewAfter(cfg: Config, w: World, act: Act, y: string): map<string, Member>
    requires Possible(cfg, w, act) && y in w.nodes
  {
    var v := View(w.nodes[y]);
    match act
    case Found(m) => if y == m.name then v[m.name := m] else v
    case Enter(x) => if y == x then Merged(v, w.joining[x].list + [w.joining[x].m]) else v
    case Depart(x) => if y == x then map[] else v
    case Process(x, m) => if y == x && w.nodes[x].agent.group.Some? then StatusView(v, m) else v
    case _ => v
  }

  ghost function InboxAfter(cfg: Config, w: World, act: Act, y: string): set<Member>
    requires Possible(cfg, w, act) && y in w.nodes
  {
    var inbox := w.nodes[y].inbox;
    match act
    case Announce(x) => if y != x && y in View(w.nodes[x]) then inbox + {w.joining[x].m} else inbox
    case Depart(x) =>
      if y != x && y in View(w.nodes[x]) then inbox + {View(w.nodes[x])[x].(active := false)} else inbox
    case Process(x, m) => if y == x then inbox - {m} else inbox
    case _ => inbox
  }

  lemma NodeOfAfter(cfg: Config, w: World, act: Act, y: string)
    requires Possible(cfg, w, act) && y in w.nodes
    ensures y in After(cfg, w, act).nodes && After(cfg, w, act).nodes[y] == NodeAfter(cfg, w, act, y)
  {
  }

  lemma ConnectingKeepsNode(cfg: Config, n: Node, x: string, r: Joining)
    ensures var a := ConnectedAll(cfg.topic, n.agent, x, r.params.mode, r.m.publisher, r.list, JoinerKeys(cfg, x));
            a.group == n.agent.group
  {
    var key := JoinerKeys(cfg, x);
    ConnectedAllGroup(cfg.topic, n.agent, n.agent.group, x, r.params.mode, r.m.publisher, r.list, key);
    assert n.agent.(group := n.agent.group) == n.agent;
  }

  lemma NodeAfterView(cfg: Config, w: World, act: Act, y: string)
    requires Possible(cfg, w, act) && y in w.nodes
    ensures View(NodeAfter(cfg, w, act, y)) == ViewAfter(cfg, w, act, y)
  {
    match act
    case Found(m) => MergedOne(View(w.nodes[y]), m);
    case Check(x) => ConnectingKeepsNode(cfg, w.nodes[y], x, w.joining[x]);
    case Process(x, m) => ProcessedView(cfg, w, x, m);
    case _ =>
  }

  lemma ProcessedView(cfg: Config, w: World, x: string, m: Member)
    requires Possible(cfg, w, Process(x, m))
    ensures View(DeliveredNode(cfg, w.nodes[x], x, m)) ==
              if w.nodes[x].agent.group.Some? then StatusView(View(w.nodes[x]), m) else View(w.nodes[x])
  {
  }

  lemma NodeAfterInbox(cfg: Config, w: World, act: Act, y: string)
    requires Possible(cfg, w, act) && y in w.nodes
    ensures NodeAfter(cfg, w, act, y).inbox == InboxAfter(cfg, w, act, y)
  {
  }

  /** Only founding, reading a list and departing change who holds the group. */
  lemma NodeAfterHolds(cfg: Config, w: World, act: Act, y: string)
    requires Possible(cfg, w, act) && y in w.nodes
    ensures NodeAfter(cfg, w, act, y).agent.group.Some? <==>
              if (act.Found? || act.ReadList?) && act.m.name == y then true
              else if act == Depart(y) then false
              else w.nodes[y].agent.group.Some?
  {
    match act
    case Check(x) => ConnectingKeepsNode(cfg, w.nodes[y], x, w.joining[x]);
    case _ =>
  }

  /** The member maps and the statuses on their way after an act. */
  lemma ViewAndInbox(cfg: Config, w: World, act: Act, y: string)
    requires Possible(cfg, w, act) && y in w.nodes
    ensures y in After(cfg, w, act).nodes
    ensures View(After(cfg, w, act).nodes[y]) == ViewAfter(cfg, w, act, y)
    ensures After(cfg, w, act).nodes[y].inbox == InboxAfter(cfg, w, act, y)
  {
    NodeOfAfter(cfg, w, act, y);
    NodeAfterView(cfg, w, act, y);
    NodeAfterInbox(cfg, w, act, y);
  }

  // -------------------------------------------------------------------------- what every history keeps

  /** An agent that holds the group has its parameters, every record under its own label, and a current checksum. */
  ghost predicate TopicOk(cfg: Config, n: Node) {
    n.agent.group.Some? ==>
      HasTopic(n.agent) && (View(n) != map[] ==> n.agent.group.value.checksum == ViewChecksum(cfg.h, View(n)))
  }

  /** The list is the acceptor's view as read, the answers are the checksums of what was held, and a join that has
      passed the consistency check has consistent answers. */
  ghost predicate JoiningOk(cfg: Config, x: string, r: Joining) {
    r.m.name == x && r.m.active && Keyed(r.view) && Lists(r.list, r.view) && AnswersOk(cfg, r) &&
    (!r.stage.Asking? && r.params.joinConsistent ==> JoinCheck.Consistent(cfg.h, r.acceptor, r.list, r.answers))
  }

  ghost predicate AnswersOk(cfg: Config, r: Joining) {
    r.answers.Keys == r.held.Keys &&
    forall l :: l in r.held ==> Keyed(r.held[l]) && r.answers[l] == ViewChecksum(cfg.h, r.held[l])
  }

  ghost predicate WorldOk(cfg: Config, w: World) {
    (forall y :: y in w.nodes ==> TopicOk(cfg, w.nodes[y])) &&
    (forall x :: x in w.joining ==> JoiningOk(cfg, x, w.joining[x]))
  }

  lemma PopulatedOk(cfg: Config, a: Agent, gp: GroupParams, mems: seq<Member>)
    requires Keyed(Members(a)) && mems != []
    ensures TopicOk(cfg, Node(a.(group := Some(Populated(cfg.h, a, gp, mems))), {}))
  {
    MergedKeyed(Members(a), mems);
  }

  lemma ActKeepsTopic(cfg: Config, w: World, act: Act, y: string)
    requires WorldOk(cfg, w) && Possible(cfg, w, act) && y in w.nodes
    ensures TopicOk(cfg, NodeAfter(cfg, w, act, y))
  {
    match act
    case Found(m) => PopulatedOk(cfg, w.nodes[m.name].agent, cfg.params, [m]);
    case ReadList(m, acceptor, list) => assert TopicOk(cfg, w.nodes[acceptor]);
    case Check(x) => ConnectingKeepsNode(cfg, w.nodes[y], x, w.joining[x]);
    case Enter(x) =>
      var r := w.joining[x];
      PopulatedOk(cfg, w.nodes[x].agent, r.params, r.list + [r.m]);
    case Depart(x) => DepartKeepsTopic(cfg, w, x, y);
    case Process(x, m) => ProcessKeepsTopic(cfg, w, x, m);
    case _ =>
  }

  lemma DepartKeepsTopic(cfg: Config, w: World, x: string, y: string)
    requires Possible(cfg, w, Depart(x)) && y in w.nodes && TopicOk(cfg, w.nodes[y])
    ensures TopicOk(cfg, LeftNode(cfg, w.nodes[y], y, View(w.nodes[x]), x))
  {
  }

  lemma ProcessKeepsTopic(cfg: Config, w: World, x: string, m: Member)
    requires Possible(cfg, w, Process(x, m)) && TopicOk(cfg, w.nodes[x])
    ensures TopicOk(cfg, DeliveredNode(cfg, w.nodes[x], x, m))
  {
  }

  lemma ReadKeepsJoining(cfg: Config, w: World, m: Member, acceptor: string, list: seq<Member>)
    requires WorldOk(cfg, w) && Possible(cfg, w, ReadList(m, acceptor, list))
    ensures m.name in JoiningAfter(cfg, w, ReadList(m, acceptor, list))
    ensures JoiningOk(cfg, m.name, JoiningAfter(cfg, w, ReadList(m, acceptor, list))[m.name])
  {
    assert TopicOk(cfg, w.nodes[acceptor]);
  }

  lemma AnswerKeepsJoining(cfg: Config, w: World, x: string, l: string)
    requires WorldOk(cfg, w) && Possible(cfg, w, Answer(x, l))
    ensures x in JoiningAfter(cfg, w, Answer(x, l)) && JoiningOk(cfg, x, JoiningAfter(cfg, w, Answer(x, l))[x])
  {
    assert TopicOk(cfg, w.nodes[l]) && JoiningOk(cfg, x, w.joining[x]);
    var r, r' := w.joining[x], JoiningAfter(cfg, w, Answer(x, l))[x];
    assert r' == r.(answers := r'.answers, held := r'.held);
    assert AnswersOk(cfg, r');
  }

  lemma ActKeepsJoining(cfg: Config, w: World, act: Act, x: string)
    requires WorldOk(cfg, w) && Possible(cfg, w, act) && x in JoiningAfter(cfg, w, act)
    ensures JoiningOk(cfg, x, JoiningAfter(cfg, w, act)[x])
  {
    if x in w.joining {
      assert JoiningOk(cfg, x, w.joining[x]);
    }
    match act
    case ReadList(m, acceptor, list) => ReadKeepsJoining(cfg, w, m, acceptor, list);
    case Answer(y, l) => AnswerKeepsJoining(cfg, w, y, l);
    case _ =>
  }

  lemma ActKeepsWorldOk(cfg: Config, w: World, act: Act)
    requires WorldOk(cfg, w) && Possible(cfg, w, act)
    ensures WorldOk(cfg, After(cfg, w, act))
  {
    forall y | y in w.nodes ensures TopicOk(cfg, After(cfg, w, act).nodes[y]) {
      NodeOfAfter(cfg, w, act, y);
      ActKeepsTopic(cfg, w, act, y);
    }
    forall x | x in After(cfg, w, act).joining ensures JoiningOk(cfg, x, After(cfg, w, act).joining[x]) {
      ActKeepsJoining(cfg, w, act, x);
    }
  }

  lemma {:induction false} HistoryKeepsWorldOk(cfg: Config, worlds: seq<World>, acts: seq<Act>, i: nat)
    requires History(cfg, worlds, acts) && i < |worlds|
    ensures WorldOk(cfg, worlds[i])
    decreases i
  {
    if i > 0 {
      HistoryKeepsWorldOk(cfg, worlds, acts, i - 1);
      assert Possible(cfg, worlds[i - 1], acts[i - 1]) && worlds[i - 1 + 1] == After(cfg, worlds[i - 1], acts[i - 1]);
      ActKeepsWorldOk(cfg, worlds[i - 1], acts[i - 1]);
    }
  }

  lemma StepOf(cfg: Config, worlds: seq<World>, acts: seq<Act>, j: nat)
    requires History(cfg, worlds, acts) && j < |acts|
    ensures WorldOk(cfg, worlds[j]) && Possible(cfg, worlds[j], acts[j]) &&
            worlds[j + 1] == After(cfg, worlds[j], acts[j])
  {
    HistoryKeepsWorldOk(cfg, worlds, acts, j);
  }

  /** Active statuses are sent by announcing, inactive ones by departing, each about the agent that does so. */
  lemma SentStatuses(cfg: Config, w: World, act: Act, y: string)
    requires WorldOk(cfg, w) && Possible(cfg, w, act) && y in w.nodes
    ensures forall s :: s in InboxAfter(cfg, w, act, y) && s !in w.nodes[y].inbox ==>
              act == if s.active then Announce(s.name) else Depart(s.name)
    ensures forall s :: s in w.nodes[y].inbox && act != Process(y, s) ==> s in InboxAfter(cfg, w, act, y)
  {
    match act
    case Announce(x) => assert JoiningOk(cfg, x, w.joining[x]);
    case Depart(x) => assert TopicOk(cfg, w.nodes[x]);
    case _ =>
  }

  // --------------------------------------------------------------------------- virtual synchrony

  /** What is recorded as held by `l` for the join of `x` is what `l` held when it answered. */
  lemma {:induction false} AnswersWereGiven(cfg: Config, worlds: seq<World>, acts: seq<Act>, i: nat, x: string,
                                            l: string)
    returns (j: nat)
    requires History(cfg, worlds, acts) && i < |worlds| && x in worlds[i].joining && l in worlds[i].joining[x].held
    ensures j < i && acts[j] == Answer(x, l) && l in worlds[j].nodes
    ensures View(worlds[j].nodes[l]) == worlds[i].joining[x].held[l]
    ensures x in worlds[j].joining && worlds[j].joining[x].list == worlds[i].joining[x].list
    decreases i
  {
    var w, act := worlds[i - 1], acts[i - 1];
    assert Possible(cfg, w, act) && worlds[i - 1 + 1] == After(cfg, w, act);
    HeldBefore(cfg, w, act, x, l);
    if act == Answer(x, l) {
      j := i - 1;
    } else {
      j := AnswersWereGiven(cfg, worlds, acts, i - 1, x, l);
    }
  }

  lemma HeldBefore(cfg: Config, w: World, act: Act, x: string, l: string)
    requires Possible(cfg, w, act) && x in JoiningAfter(cfg, w, act) && l in JoiningAfter(cfg, w, act)[x].held
    ensures x in w.joining && w.joining[x].list == JoiningAfter(cfg, w, act)[x].list
    ensures if act == Answer(x, l) then l in w.nodes && JoiningAfter(cfg, w, act)[x].held[l] == View(w.nodes[l])
            else l in w.joining[x].held && JoiningAfter(cfg, w, act)[x].held[l] == w.joining[x].held[l]
  {
  }

  /** Virtual synchrony in every history: when a join has passed the check, every listed active member other than the
      acceptor answered, and each held, in the world in which it answered, exactly the view that the joiner had read. */
  lemma CheckedMembersHeldTheView(cfg: Config, worlds: seq<World>, acts: seq<Act>, i: nat, x: string, l: string)
    returns (j: nat)
    requires History(cfg, worlds, acts) && i < |worlds| && x in worlds[i].joining
    requires var r := worlds[i].joining[x];
             !r.stage.Asking? && r.params.joinConsistent && |r.view| > 1 &&
             l in r.view && r.view[l].active && l != r.acceptor
    requires var r := worlds[i].joining[x];
             forall y :: y in r.held && Keyed(r.held[y]) && Keyed(r.view) ==> NoViewCollision(cfg.h, r.held[y], r.view)
    ensures j < i && acts[j] == Answer(x, l) && l in worlds[j].nodes
    ensures View(worlds[j].nodes[l]) == worlds[i].joining[x].view
  {
    var r := worlds[i].joining[x];
    HistoryKeepsWorldOk(cfg, worlds, acts, i);
    assert JoiningOk(cfg, x, r);
    JoinCheck.AnswersHoldTheSameView(cfg.h, r.acceptor, r.list, r.view, r.answers, r.held, l);
    j := AnswersWereGiven(cfg, worlds, acts, i, x, l);
  }

  // ------------------------------------------------------------- when a joiner's view is the roster

  lemma {:induction false} MergedNames(members: map<string, Member>, mems: seq<Member>, l: string)
    ensures l in Merged(members, mems) <==> l in members || Named(mems, l)
  {
    if mems != [] {
      var init, last := mems[..|mems| - 1], mems[|mems| - 1];
      MergedNames(members, init, l);
      assert mems == init + [last];
    }
  }

  /** Entering gives the joiner the list and itself, over whatever it has processed meanwhile, and adds exactly the
      joiner to the roster. */
  lemma EnteredRoster(cfg: Config, w: World, x: string)
    requires WorldOk(cfg, w) && Possible(cfg, w, Enter(x))
    ensures var r := w.joining[x];
            x in After(cfg, w, Enter(x)).nodes &&
            View(After(cfg, w, Enter(x)).nodes[x]) == Merged(View(w.nodes[x]), r.list + [r.m]) &&
            Roster(After(cfg, w, Enter(x)).nodes) == Roster(w.nodes)[x := r.m]
  {
    var r, nodes' := w.joining[x], After(cfg, w, Enter(x)).nodes;
    assert JoiningOk(cfg, x, r);
    assert (r.list + [r.m])[..|r.list|] == r.list;
    forall y | y in nodes' ensures y in View(nodes'[y]) <==> y in Roster(w.nodes)[x := r.m]
      ensures y in Roster(w.nodes)[x := r.m] ==> View(nodes'[y])[y] == Roster(w.nodes)[x := r.m][y]
    {
      ViewAndInbox(cfg, w, Enter(x), y);
    }
    ViewAndInbox(cfg, w, Enter(x), x);
    RosterOfRecords(nodes', Roster(w.nodes)[x := r.m]);
  }

  /** A list of distinct labels merges to the roster with the joiner exactly when it lists the roster. */
  lemma MergedIffLists(list: seq<Member>, roster: map<string, Member>, m: Member)
    requires UniqueLabels(list) && Keyed(roster) && !Named(list, m.name) && m.name !in roster
    ensures Merged(map[], list + [m]) == roster[m.name := m] <==> Lists(list, roster)
  {
    if Lists(list, roster) {
      MergedListing(list, roster, m);
    }
    if Merged(map[], list + [m]) == roster[m.name := m] {
      var merged := Merged(map[], list);
      assert (list + [m])[..|list|] == list;
      MergedList(list, m.name);
      forall l ensures l in merged <==> l in roster
        ensures l in roster ==> merged[l] == roster[l]
      {
        assert l != m.name ==> (l in merged <==> l in merged[m.name := m]);
      }
      assert merged == roster;
      forall l | l in roster ensures roster[l] in list {
        MergedList(list, l);
        var k :| 0 <= k < |list| && list[k].name == l;
        assert list[k] in list;
      }
    }
  }

  lemma RosterIsKeyed(cfg: Config, w: World)
    requires WorldOk(cfg, w)
    ensures Keyed(Roster(w.nodes))
  {
    forall l | l in Roster(w.nodes) ensures Roster(w.nodes)[l].name == l {
      assert TopicOk(cfg, w.nodes[l]);
    }
  }

  /** The exact condition: in every history a joiner holds the true roster after entering if and only if the list it
      read earlier, over what it has processed meanwhile, gives the roster of that moment, itself apart; for a joiner
      that its list does not name and that has processed nothing, if and only if the list lists that roster. */
  lemma JoinerHoldsRosterIff(cfg: Config, worlds: seq<World>, acts: seq<Act>, i: nat, x: string)
    requires History(cfg, worlds, acts) && i < |acts| && acts[i] == Enter(x)
    requires x in worlds[i].joining && x in worlds[i].nodes
    ensures x in worlds[i + 1].nodes
    ensures var list, roster := worlds[i].joining[x].list, Roster(worlds[i].nodes);
            View(worlds[i + 1].nodes[x]) == Roster(worlds[i + 1].nodes) <==>
              Merged(View(worlds[i].nodes[x]), list) - {x} == roster - {x}
    ensures var list, roster := worlds[i].joining[x].list, Roster(worlds[i].nodes);
            !Named(list, x) && View(worlds[i].nodes[x]) == map[] ==>
              (View(worlds[i + 1].nodes[x]) == Roster(worlds[i + 1].nodes) <==> Lists(list, roster))
  {
    assert Possible(cfg, worlds[i], acts[i]) && worlds[i + 1] == After(cfg, worlds[i], acts[i]);
    HistoryKeepsWorldOk(cfg, worlds, acts, i);
    var r, v, roster := worlds[i].joining[x], View(worlds[i].nodes[x]), Roster(worlds[i].nodes);
    assert JoiningOk(cfg, x, r);
    EnteredRoster(cfg, worlds[i], x);
    assert (r.list + [r.m])[..|r.list|] == r.list;
    SameButOne(Merged(v, r.list), roster, x, r.m);
    if !Named(r.list, x) && v == map[] {
      RosterIsKeyed(cfg, worlds[i]);
      MergedIffLists(r.list, roster, r.m);
    }
  }

  lemma SameButOne(a: map<string, Member>, b: map<string, Member>, x: string, m: Member)
    ensures a[x := m] == b[x := m] <==> a - {x} == b - {x}
  {
    assert a[x := m] == (a - {x})[x := m] && a[x := m] - {x} == a - {x};
    assert b[x := m] == (b - {x})[x := m] && b[x := m] - {x} == b - {x};
  }

  // ------------------------------------------------------------- departures that the joiner never hears of

  /** `x` has `l` in its view, and no status of `l` on its way. */
  ghost predicate Keeps(w: World, x: string, l: string) {
    x in w.nodes && w.nodes[x].agent.group.Some? && l in View(w.nodes[x]) &&
    forall s :: s in w.nodes[x].inbox ==> s.name != l
  }

  /** `x` has dropped `l`, or its leaving is on its way. */
  ghost predicate Drops(w: World, x: string, l: string) {
    x in w.nodes && w.nodes[x].agent.group.Some? &&
    (forall s :: s in w.nodes[x].inbox && s.name == l ==> !s.active) &&
    (l in View(w.nodes[x]) ==> exists s :: s in w.nodes[x].inbox && s.name == l)
  }

  /** The act is none in which `l` is announced or departs, or `x` enters or departs. */
  predicate Quiet(act: Act, x: string, l: string) {
    match act
    case Found(m) => m.name != x
    case Enter(y) => y != x
    case Announce(y) => y != l
    case Depart(y) => y != x && y != l
    case _ => true
  }

  lemma QuietKeeps(cfg: Config, w: World, act: Act, x: string, l: string)
    requires WorldOk(cfg, w) && Possible(cfg, w, act) && Quiet(act, x, l)
    ensures Keeps(w, x, l) ==> Keeps(After(cfg, w, act), x, l)
    ensures Drops(w, x, l) ==> Drops(After(cfg, w, act), x, l)
  {
    if x in w.nodes {
      ViewAndInbox(cfg, w, act, x);
      NodeOfAfter(cfg, w, act, x);
      NodeAfterHolds(cfg, w, act, x);
      SentStatuses(cfg, w, act, x);
    }
  }

  /** A departing member tells exactly those in its view. */
  lemma DepartureTells(cfg: Config, w: World, x: string, l: string)
    requires WorldOk(cfg, w) && Possible(cfg, w, Depart(l)) && Keeps(w, x, l) && x != l && l in w.nodes
    ensures if x in View(w.nodes[l])
            then Drops(After(cfg, w, Depart(l)), x, l) else Keeps(After(cfg, w, Depart(l)), x, l)
  {
    ViewAndInbox(cfg, w, Depart(l), x);
    NodeOfAfter(cfg, w, Depart(l), x);
    NodeAfterHolds(cfg, w, Depart(l), x);
    assert TopicOk(cfg, w.nodes[l]);
    var s := View(w.nodes[l])[l].(active := false);
    assert x in View(w.nodes[l]) ==> s in InboxAfter(cfg, w, Depart(l), x) && s.name == l;
  }

  lemma {:induction false} QuietHistoryKeeps(cfg: Config, worlds: seq<World>, acts: seq<Act>, i: nat, n: nat, x: string,
                                             l: string)
    requires History(cfg, worlds, acts) && i <= n <= |acts| && forall j :: i <= j < n ==> Quiet(acts[j], x, l)
    ensures Keeps(worlds[i], x, l) ==> Keeps(worlds[n], x, l)
    ensures Drops(worlds[i], x, l) ==> Drops(worlds[n], x, l)
    decreases n
  {
    if i < n {
      QuietHistoryKeeps(cfg, worlds, acts, i, n - 1, x, l);
      StepOf(cfg, worlds, acts, n - 1);
      QuietKeeps(cfg, worlds[n - 1], acts[n - 1], x, l);
    }
  }

  lemma EntrantKeeps(cfg: Config, w: World, x: string, l: string)
    requires WorldOk(cfg, w) && Possible(cfg, w, Enter(x)) && Named(w.joining[x].list, l)
    requires forall s :: s in w.nodes[x].inbox ==> s.name != l
    ensures Keeps(After(cfg, w, Enter(x)), x, l)
  {
    var r := w.joining[x];
    ViewAndInbox(cfg, w, Enter(x), x);
    NodeOfAfter(cfg, w, Enter(x), x);
    NodeAfterHolds(cfg, w, Enter(x), x);
    MergedNames(View(w.nodes[x]), r.list + [r.m], l);
    var k :| 0 <= k < |r.list| && r.list[k].name == l;
    assert (r.list + [r.m])[k] == r.list[k];
  }

  /** `x` entered with a list that names `l`, with no status of `l` on its way, and from then to the world `n` the one
      thing that happens between the two, if not before, is that `l` departs, in the act `k`. */
  ghost predicate OneDeparture(worlds: seq<World>, acts: seq<Act>, i: nat, k: nat, n: nat, x: string, l: string) {
    |worlds| == |acts| + 1 && i < n <= |acts| && k < n && x != l &&
    acts[i] == Enter(x) && acts[k] == Depart(l) && x in worlds[i].joining && Named(worlds[i].joining[x].list, l) &&
    x in worlds[i].nodes && (forall s :: s in worlds[i].nodes[x].inbox ==> s.name != l) &&
    forall j :: i < j < n && j != k ==> Quiet(acts[j], x, l)
  }

  /** When nothing of `l` is left to process at `x`, the departed `l` is still in the view of `x` if and only if it
      departed before `x` entered, or without having `x` in its own view. */
  lemma DepartedMemberStaysIff(cfg: Config, worlds: seq<World>, acts: seq<Act>, i: nat, k: nat, n: nat, x: string,
                               l: string)
    requires History(cfg, worlds, acts) && OneDeparture(worlds, acts, i, k, n, x, l)
    requires x in worlds[n].nodes && forall s :: s in worlds[n].nodes[x].inbox ==> s.name != l
    ensures l in worlds[k].nodes
    ensures l in View(worlds[n].nodes[x]) <==> k < i || x !in View(worlds[k].nodes[l])
  {
    StepOf(cfg, worlds, acts, i);
    StepOf(cfg, worlds, acts, k);
    EntrantKeeps(cfg, worlds[i], x, l);
    assert Keeps(worlds[i + 1], x, l);
    if k < i {
      QuietHistoryKeeps(cfg, worlds, acts, i + 1, n, x, l);
    } else {
      assert k > i;
      DepartsLater(cfg, worlds, acts, i, k, n, x, l);
    }
  }

  lemma DepartsLater(cfg: Config, worlds: seq<World>, acts: seq<Act>, i: nat, k: nat, n: nat, x: string, l: string)
    requires History(cfg, worlds, acts) && i < k < n <= |acts| && acts[k] == Depart(l) && x != l
    requires forall j :: i < j < n && j != k ==> Quiet(acts[j], x, l)
    requires Keeps(worlds[i + 1], x, l)
    ensures l in worlds[k].nodes
    ensures if x in View(worlds[k].nodes[l]) then Drops(worlds[n], x, l) else Keeps(worlds[n], x, l)
  {
    StepOf(cfg, worlds, acts, k);
    QuietHistoryKeeps(cfg, worlds, acts, i + 1, k, x, l);
    DepartureTells(cfg, worlds[k], x, l);
    QuietHistoryKeeps(cfg, worlds, acts, k + 1, n, x, l);
  }

  /** In the acts from `i` to before `k`, `l` processes an active status of `x`. */
  ghost predicate ProcessesStatus(acts: seq<Act>, i: nat, k: nat, l: string, x: string) {
    exists j :: i <= j < k && j < |acts| && LearnsBy(acts[j], l, x)
  }

  /** `l` stays in the group, and `x` does too. */
  ghost predicate Staying(acts: seq<Act>, i: nat, k: nat, l: string, x: string) {
    forall j :: i <= j < k && j < |acts| ==> BothStay(acts[j], l, x)
  }

  predicate BothStay(act: Act, l: string, x: string) {
    match act
    case Found(m) => m.name != l
    case ReadList(m, _, _) => m.name != l
    case Enter(y) => y != l
    case Depart(y) => y != l && y != x
    case _ => true
  }

  predicate LearnsBy(act: Act, l: string, x: string) {
    act.Process? && act.x == l && act.m.active && act.m.name == x
  }

  /** `l` holds the group, has no inactive status of `x` on its way, and has `x` in its view as stated. */
  ghost predicate Knows(w: World, l: string, x: string, known: bool) {
    l in w.nodes && w.nodes[l].agent.group.Some? && (x in View(w.nodes[l]) <==> known) &&
    forall s :: s in w.nodes[l].inbox && s.name == x ==> s.active
  }

  lemma StepKnows(cfg: Config, w: World, act: Act, l: string, x: string, known: bool)
    requires WorldOk(cfg, w) && Possible(cfg, w, act) && Knows(w, l, x, known) && BothStay(act, l, x)
    ensures Knows(After(cfg, w, act), l, x, known || LearnsBy(act, l, x))
  {
    ViewAndInbox(cfg, w, act, l);
    NodeOfAfter(cfg, w, act, l);
    NodeAfterHolds(cfg, w, act, l);
    SentStatuses(cfg, w, act, l);
  }

  /** A member that stays learns of `x` exactly by processing its status. */
  lemma {:induction false} LearnsByProcessing(cfg: Config, worlds: seq<World>, acts: seq<Act>, i: nat, k: nat,
                                              l: string, x: string)
    requires History(cfg, worlds, acts) && i <= k <= |acts| && Staying(acts, i, k, l, x) &&
             Knows(worlds[i], l, x, false)
    ensures Knows(worlds[k], l, x, ProcessesStatus(acts, i, k, l, x))
    decreases k
  {
    if i < k {
      LearnsByProcessing(cfg, worlds, acts, i, k - 1, l, x);
      assert BothStay(acts[k - 1], l, x);
      KnowsNext(cfg, worlds, acts, k - 1, l, x, ProcessesStatus(acts, i, k - 1, l, x));
      OneMoreAct(acts, i, k, l, x);
    }
  }

  lemma KnowsNext(cfg: Config, worlds: seq<World>, acts: seq<Act>, j: nat, l: string, x: string, known: bool)
    requires History(cfg, worlds, acts) && j < |acts| && Knows(worlds[j], l, x, known) && BothStay(acts[j], l, x)
    ensures Knows(worlds[j + 1], l, x, known || LearnsBy(acts[j], l, x))
  {
    StepOf(cfg, worlds, acts, j);
    StepKnows(cfg, worlds[j], acts[j], l, x, known);
  }

  lemma OneMoreAct(acts: seq<Act>, i: nat, k: nat, l: string, x: string)
    requires i < k <= |acts|
    ensures ProcessesStatus(acts, i, k, l, x) <==> ProcessesStatus(acts, i, k - 1, l, x) || LearnsBy(acts[k - 1], l, x)
  {
  }

  /** In terms of when it departed: a member to whom `x` is new stays in the view of `x` for good if and only if it
      departs before it has processed the status of `x`. */
  lemma DepartedUnawareStaysIff(cfg: Config, worlds: seq<World>, acts: seq<Act>, i: nat, k: nat, n: nat, x: string,
                                l: string)
    requires History(cfg, worlds, acts) && OneDeparture(worlds, acts, i, k, n, x, l)
    requires x in worlds[n].nodes && forall s :: s in worlds[n].nodes[x].inbox ==> s.name != l
    requires i < k ==> Knows(worlds[i], l, x, false) && Staying(acts, i, k, l, x)
    ensures l in View(worlds[n].nodes[x]) <==> !ProcessesStatus(acts, i, k, l, x)
  {
    DepartedMemberStaysIff(cfg, worlds, acts, i, k, n, x, l);
    if i < k {
      LearnsByProcessing(cfg, worlds, acts, i, k, l, x);
    }
  }

  // ----------------------------------------------------------------------------- nobody is told later

  /** `a` does not know `b` and is not about to. */
  ghost predicate Unaware(w: World, a: string, b: string) {
    a in w.nodes ==> b !in View(w.nodes[a]) && forall m :: m in w.nodes[a].inbox && m.active ==> m.name != b
  }

  /** The joins of the run keep `b` from `a`: no list that `a` enters names `b`, and `a` is in no view of `b` when `b`
      announces itself. */
  ghost predicate Separate(worlds: seq<World>, acts: seq<Act>, a: string, b: string)
    requires |worlds| == |acts| + 1
  {
    forall j :: 0 <= j < |acts| ==> Apart(worlds[j], acts[j], a, b)
  }

  ghost predicate Apart(w: World, act: Act, a: string, b: string) {
    (act == Enter(a) && a in w.joining ==> !Named(w.joining[a].list, b)) &&
    (act == Announce(b) && b in w.nodes ==> a !in View(w.nodes[b]))
  }

  lemma StaysUnaware(cfg: Config, w: World, act: Act, a: string, b: string)
    requires WorldOk(cfg, w) && Possible(cfg, w, act) && Unaware(w, a, b) && a != b && Apart(w, act, a, b)
    ensures Unaware(After(cfg, w, act), a, b)
  {
    if a in w.nodes {
      ViewAndInbox(cfg, w, act, a);
      SentStatuses(cfg, w, act, a);
      if act == Enter(a) {
        var r := w.joining[a];
        assert JoiningOk(cfg, a, r);
        MergedNames(View(w.nodes[a]), r.list + [r.m], b);
        assert Named(r.list + [r.m], b) <==> Named(r.list, b) || a == b;
      }
    }
  }

  /** Neither by waiting nor by any later step does `a` learn of `b`, as long as the joins keep them apart. */
  lemma {:induction false} NeverLearns(cfg: Config, worlds: seq<World>, acts: seq<Act>, k: nat, a: string, b: string)
    requires History(cfg, worlds, acts) && k < |worlds| && a != b && Separate(worlds, acts, a, b)
    ensures Unaware(worlds[k], a, b)
    decreases k
  {
    if k > 0 {
      NeverLearns(cfg, worlds, acts, k - 1, a, b);
      StepOf(cfg, worlds, acts, k - 1);
      StaysUnaware(cfg, worlds[k - 1], acts[k - 1], a, b);
    }
  }
}
