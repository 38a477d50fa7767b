/** Two histories of the unserialised protocol that end with nothing left to process and a joiner without the true
    roster: one with two overlapping joins, and one with a departure between a joiner's check and its announcement. */
module OverlapRuns {
  import opened Base64
  import opened Models
  import opened LocalSteps
  import opened Membership
  import opened Overlap
  import JoinCheck

  ghost function Begin(cfg: Config): World {
    World(map x | x in cfg.agents :: Node(Agent(None, map[], multiset{}), {}), map[])
  }

  /** The acts lead from the initial world to `w`. */
  ghost predicate Leads(cfg: Config, acts: seq<Act>, w: World)
    decreases |acts|
  {
    if acts == [] then w == Begin(cfg)
    else
      var init, last := acts[..|acts| - 1], acts[|acts| - 1];
      exists u: World :: Leads(cfg, init, u) && Possible(cfg, u, last) && w == After(cfg, u, last)
  }

  lemma Continue(cfg: Config, acts: seq<Act>, w: World, act: Act)
    requires Leads(cfg, acts, w) && Possible(cfg, w, act)
    ensures Leads(cfg, acts + [act], After(cfg, w, act))
  {
    assert (acts + [act])[..|acts + [act]| - 1] == acts;
  }

  lemma {:induction false} HistoryOf(cfg: Config, acts: seq<Act>, w: World) returns (worlds: seq<World>)
    requires Leads(cfg, acts, w)
    ensures History(cfg, worlds, acts) && worlds[|acts|] == w
    decreases |acts|
  {
    if acts == [] {
      worlds := [w];
    } else {
      var init, last := acts[..|acts| - 1], acts[|acts| - 1];
      var u: World :| Leads(cfg, init, u) && Possible(cfg, u, last) && w == After(cfg, u, last);
      worlds := HistoryOf(cfg, init, u);
      var acts';
      worlds, acts' := Extended(cfg, worlds, init, last);
      assert acts' == acts;
    }
  }

  /** Everybody has the configured parameters. */
  ghost predicate CommonParams(cfg: Config, w: World) {
    (forall y :: y in w.nodes && HasTopic(w.nodes[y].agent) ==>
     w.nodes[y].agent.group.value.params == Some(cfg.params)) &&
    forall x :: x in w.joining ==> w.joining[x].params == cfg.params
  }

  lemma ActKeepsParams(cfg: Config, w: World, act: Act, y: string)
    requires WorldOk(cfg, w) && CommonParams(cfg, w) && Possible(cfg, w, act) && y in w.nodes
    ensures var n := NodeAfter(cfg, w, act, y);
            HasTopic(n.agent) ==> n.agent.group.value.params == Some(cfg.params)
  {
    assert TopicOk(cfg, w.nodes[y]);
    match act
    case Check(x) => ConnectingKeepsNode(cfg, w.nodes[y], x, w.joining[x]);
    case _ =>
  }

  lemma {:induction false} LeadsOk(cfg: Config, acts: seq<Act>, w: World)
    requires Leads(cfg, acts, w)
    ensures WorldOk(cfg, w) && CommonParams(cfg, w)
    decreases |acts|
  {
    if acts != [] {
      var init, last := acts[..|acts| - 1], acts[|acts| - 1];
      var u: World :| Leads(cfg, init, u) && Possible(cfg, u, last) && w == After(cfg, u, last);
      LeadsOk(cfg, init, u);
      ActKeepsWorldOk(cfg, u, last);
      ActKeepsCommonParams(cfg, u, last);
    }
  }

  lemma ActKeepsCommonParams(cfg: Config, w: World, act: Act)
    requires WorldOk(cfg, w) && CommonParams(cfg, w) && Possible(cfg, w, act)
    ensures CommonParams(cfg, After(cfg, w, act))
  {
    forall y | y in w.nodes && HasTopic(After(cfg, w, act).nodes[y].agent)
      ensures After(cfg, w, act).nodes[y].agent.group.value.params == Some(cfg.params)
    {
      NodeOfAfter(cfg, w, act, y);
      ActKeepsParams(cfg, w, act, y);
    }
  }

  // ------------------------------------------------------------------------- who has what in a world

  type Views = map<string, map<string, Member>>

  type Inboxes = map<string, set<Member>>

  function ViewIn(views: Views, y: string): map<string, Member> {
    if y in views then views[y] else map[]
  }

  function Pending(inboxes: Inboxes, y: string): set<Member> {
    if y in inboxes then inboxes[y] else {}
  }

  ghost predicate NodeShape(n: Node, holds: bool, view: map<string, Member>, inbox: set<Member>) {
    n.inbox == inbox && View(n) == view && (n.agent.group.Some? <==> holds)
  }

  /** The agents that hold the group have these views, and all agents these statuses to process. */
  ghost predicate Shape(cfg: Config, w: World, views: Views, inboxes: Inboxes) {
    w.nodes.Keys == cfg.agents &&
    forall y :: y in cfg.agents ==>
      y in w.nodes && NodeShape(w.nodes[y], y in views, ViewIn(views, y), Pending(inboxes, y))
  }

  ghost predicate HoldsAfter(w: World, act: Act, y: string)
    requires y in w.nodes
  {
    if (act.Found? || act.ReadList?) && act.m.name == y then true
    else if act == Depart(y) then false
    else w.nodes[y].agent.group.Some?
  }

  lemma ActShape(cfg: Config, w: World, act: Act, views: Views, inboxes: Inboxes)
    requires Possible(cfg, w, act) && w.nodes.Keys == cfg.agents
    requires forall y :: y in w.nodes ==>
               (y in views <==> HoldsAfter(w, act, y)) && ViewIn(views, y) == ViewAfter(cfg, w, act, y) &&
               Pending(inboxes, y) == InboxAfter(cfg, w, act, y)
    ensures Shape(cfg, After(cfg, w, act), views, inboxes)
  {
    forall y | y in cfg.agents
      ensures y in After(cfg, w, act).nodes
      ensures NodeShape(After(cfg, w, act).nodes[y], y in views, ViewIn(views, y), Pending(inboxes, y))
    {
      NodeOfAfter(cfg, w, act, y);
      ViewAndInbox(cfg, w, act, y);
      NodeAfterHolds(cfg, w, act, y);
    }
  }

  /** The roster of a shape: the own records of the agents that hold the group. */
  lemma ShapeRoster(cfg: Config, w: World, views: Views, inboxes: Inboxes)
    requires Shape(cfg, w, views, inboxes) && views.Keys <= cfg.agents && forall x :: x in views ==> x in views[x]
    ensures Roster(w.nodes) == map x | x in views && x in views[x] :: views[x][x]
  {
    var roster := map x | x in views && x in views[x] :: views[x][x];
    forall y | y in w.nodes ensures y in View(w.nodes[y]) <==> y in roster
      ensures y in roster ==> View(w.nodes[y])[y] == roster[y]
    {
      assert NodeShape(w.nodes[y], y in views, ViewIn(views, y), Pending(inboxes, y));
    }
    RosterOfRecords(w.nodes, roster);
  }

  // --------------------------------------------------------------------------------- one step each

  /** A history so far, as seen from its last world. */
  ghost predicate At(cfg: Config, acts: seq<Act>, w: World, views: Views, inboxes: Inboxes) {
    Leads(cfg, acts, w) && Shape(cfg, w, views, inboxes)
  }

  lemma HolderShape(cfg: Config, acts: seq<Act>, w: World, views: Views, inboxes: Inboxes, y: string)
    requires At(cfg, acts, w, views, inboxes) && y in cfg.agents
    ensures y in w.nodes && w.nodes[y].inbox == Pending(inboxes, y) && View(w.nodes[y]) == ViewIn(views, y)
    ensures w.nodes[y].agent.group.Some? <==> y in views
    ensures y in views ==> HasTopic(w.nodes[y].agent) && w.nodes[y].agent.group.value.params == Some(cfg.params)
  {
    LeadsOk(cfg, acts, w);
    assert NodeShape(w.nodes[y], y in views, ViewIn(views, y), Pending(inboxes, y));
    assert TopicOk(cfg, w.nodes[y]);
  }

  lemma Step(cfg: Config, acts: seq<Act>, w: World, act: Act, views: Views, inboxes: Inboxes) returns (w': World)
    requires Leads(cfg, acts, w) && Possible(cfg, w, act) && w.nodes.Keys == cfg.agents
    requires forall y :: y in w.nodes ==>
               (y in views <==> HoldsAfter(w, act, y)) && ViewIn(views, y) == ViewAfter(cfg, w, act, y) &&
               Pending(inboxes, y) == InboxAfter(cfg, w, act, y)
    ensures At(cfg, acts + [act], w', views, inboxes) && w' == After(cfg, w, act)
  {
    ActShape(cfg, w, act, views, inboxes);
    Continue(cfg, acts, w, act);
    w' := After(cfg, w, act);
  }

  lemma AllShapes(cfg: Config, acts: seq<Act>, w: World, views: Views, inboxes: Inboxes)
    requires At(cfg, acts, w, views, inboxes)
    ensures w.nodes.Keys == cfg.agents
    ensures forall y :: y in w.nodes ==>
              w.nodes[y].inbox == Pending(inboxes, y) && View(w.nodes[y]) == ViewIn(views, y) &&
              (w.nodes[y].agent.group.Some? <==> y in views)
  {
    forall y | y in w.nodes
      ensures w.nodes[y].inbox == Pending(inboxes, y) && View(w.nodes[y]) == ViewIn(views, y)
      ensures w.nodes[y].agent.group.Some? <==> y in views
    {
      HolderShape(cfg, acts, w, views, inboxes, y);
    }
  }

  lemma FoundStep(cfg: Config, m: Member) returns (w: World)
    requires m.name in cfg.agents && m.active
    ensures At(cfg, [Found(m)], w, map[m.name := map[m.name := m]], map[]) && w.joining == map[]
  {
    w := Step(cfg, [], Begin(cfg), Found(m), map[m.name := map[m.name := m]], map[]);
    assert [] + [Found(m)] == [Found(m)];
  }

  lemma ReadStep(cfg: Config, acts: seq<Act>, w: World, views: Views, inboxes: Inboxes, m: Member, acceptor: string,
                 list: seq<Member>) returns (w': World)
    requires At(cfg, acts, w, views, inboxes) && m.name in cfg.agents && m.active && m.name !in views &&
             m.name !in w.joining
    requires acceptor in cfg.agents && acceptor in views && views[acceptor] != map[] && Lists(list, views[acceptor])
    ensures At(cfg, acts + [ReadList(m, acceptor, list)], w', views[m.name := map[]], inboxes)
    ensures w'.joining ==
            w.joining[m.name := Joining(m, acceptor, cfg.params, views[acceptor], list, map[], map[], Asking)]
  {
    AllShapes(cfg, acts, w, views, inboxes);
    HolderShape(cfg, acts, w, views, inboxes, acceptor);
    w' := Step(cfg, acts, w, ReadList(m, acceptor, list), views[m.name := map[]], inboxes);
  }

  lemma AnswerStep(cfg: Config, acts: seq<Act>, w: World, views: Views, inboxes: Inboxes, x: string, l: string)
    returns (w': World)
    requires At(cfg, acts, w, views, inboxes) && x in cfg.agents && x in views && x in w.joining &&
             w.joining[x].stage == Asking
    requires Listed(w.joining[x].list, l) && l != x && l !in w.joining[x].answers
    requires l in cfg.agents && l in views && l in views[l]
    ensures At(cfg, acts + [Answer(x, l)], w', views, inboxes)
    ensures x in w'.joining && w'.joining == w.joining[x := w'.joining[x]]
    ensures w'.joining[x] ==
              w.joining[x].(answers := w'.joining[x].answers, held := w.joining[x].held[l := views[l]])
    ensures w'.joining[x].answers.Keys == w.joining[x].answers.Keys + {l}
  {
    AllShapes(cfg, acts, w, views, inboxes);
    HolderShape(cfg, acts, w, views, inboxes, x);
    HolderShape(cfg, acts, w, views, inboxes, l);
    w' := Step(cfg, acts, w, Answer(x, l), views, inboxes);
  }

  lemma CheckStep(cfg: Config, acts: seq<Act>, w: World, views: Views, inboxes: Inboxes, x: string) returns (w': World)
    requires At(cfg, acts, w, views, inboxes) && x in cfg.agents && x in views && x in w.joining &&
             w.joining[x].stage == Asking
    requires var r := w.joining[x];
             |r.list| <= 1 || forall l :: l in r.view && r.view[l].active && l != r.acceptor ==>
               l in r.held && r.held[l] == r.view
    ensures At(cfg, acts + [Check(x)], w', views, inboxes)
    ensures w'.joining == w.joining[x := w.joining[x].(stage := Checked)]
  {
    AllShapes(cfg, acts, w, views, inboxes);
    HolderShape(cfg, acts, w, views, inboxes, x);
    LeadsOk(cfg, acts, w);
    var r := w.joining[x];
    assert JoiningOk(cfg, x, r);
    if |r.list| > 1 {
      JoinCheck.EqualViewsAreConsistent(cfg.h, r.acceptor, r.list, r.view, r.answers, r.held);
    }
    w' := Step(cfg, acts, w, Check(x), views, inboxes);
  }

  lemma EnterStep(cfg: Config, acts: seq<Act>, w: World, views: Views, inboxes: Inboxes, x: string) returns (w': World)
    requires At(cfg, acts, w, views, inboxes) && x in cfg.agents && x in w.joining && w.joining[x].stage == Checked
    requires x in views && views[x] == map[] && x !in w.joining[x].view
    ensures At(cfg, acts + [Enter(x)], w', views[x := w.joining[x].view[x := w.joining[x].m]], inboxes)
    ensures w'.joining == w.joining[x := w.joining[x].(stage := Entered)]
  {
    AllShapes(cfg, acts, w, views, inboxes);
    HolderShape(cfg, acts, w, views, inboxes, x);
    LeadsOk(cfg, acts, w);
    var r := w.joining[x];
    assert JoiningOk(cfg, x, r);
    MergedListing(r.list, r.view, r.m);
    w' := Step(cfg, acts, w, Enter(x), views[x := r.view[x := r.m]], inboxes);
  }

  /** The statuses after `m` has been told to everybody in `view` but itself. */
  function Told(agents: set<string>, inboxes: Inboxes, view: map<string, Member>, m: Member): Inboxes {
    map y | y in agents :: if y in view && y != m.name then Pending(inboxes, y) + {m} else Pending(inboxes, y)
  }

  lemma AnnounceStep(cfg: Config, acts: seq<Act>, w: World, views: Views, inboxes: Inboxes, x: string)
    returns (w': World)
    requires At(cfg, acts, w, views, inboxes) && x in cfg.agents && x in views && x in w.joining &&
             w.joining[x].stage == Entered
    ensures At(cfg, acts + [Announce(x)], w', views, Told(cfg.agents, inboxes, views[x], w.joining[x].m))
    ensures w'.joining == w.joining - {x}
  {
    AllShapes(cfg, acts, w, views, inboxes);
    HolderShape(cfg, acts, w, views, inboxes, x);
    LeadsOk(cfg, acts, w);
    assert JoiningOk(cfg, x, w.joining[x]);
    w' := Step(cfg, acts, w, Announce(x), views, Told(cfg.agents, inboxes, views[x], w.joining[x].m));
  }

  lemma DepartStep(cfg: Config, acts: seq<Act>, w: World, views: Views, inboxes: Inboxes, x: string) returns (w': World)
    requires At(cfg, acts, w, views, inboxes) && x in cfg.agents && x in views && x in views[x] && x !in w.joining
    requires views[x][x].name == x
    ensures At(cfg, acts + [Depart(x)], w', views - {x},
               Told(cfg.agents, inboxes, views[x], views[x][x].(active := false)))
    ensures w'.joining == w.joining
  {
    AllShapes(cfg, acts, w, views, inboxes);
    HolderShape(cfg, acts, w, views, inboxes, x);
    w' := Step(cfg, acts, w, Depart(x), views - {x},
               Told(cfg.agents, inboxes, views[x], views[x][x].(active := false)));
  }

  lemma ProcessStep(cfg: Config, acts: seq<Act>, w: World, views: Views, inboxes: Inboxes, x: string, m: Member)
    returns (w': World)
    requires At(cfg, acts, w, views, inboxes) && x in cfg.agents && m in Pending(inboxes, x)
    requires x in views ==> StatusView(views[x], m) != map[]
    ensures At(cfg, acts + [Process(x, m)], w', if x in views then views[x := StatusView(views[x], m)] else views,
               inboxes[x := Pending(inboxes, x) - {m}])
    ensures w'.joining == w.joining
  {
    AllShapes(cfg, acts, w, views, inboxes);
    HolderShape(cfg, acts, w, views, inboxes, x);
    w' := Step(cfg, acts, w, Process(x, m), if x in views then views[x := StatusView(views[x], m)] else views,
               inboxes[x := Pending(inboxes, x) - {m}]);
  }

  /** Only the views and the statuses of the agents count. */
  ghost predicate SameShape(agents: set<string>, views: Views, inboxes: Inboxes, views': Views, inboxes': Inboxes) {
    forall y :: y in agents ==>
      (y in views' <==> y in views) && ViewIn(views', y) == ViewIn(views, y) &&
        Pending(inboxes', y) == Pending(inboxes, y)
  }

  lemma Reshape(cfg: Config, acts: seq<Act>, w: World, views: Views, inboxes: Inboxes, views': Views, inboxes': Inboxes)
    requires At(cfg, acts, w, views, inboxes) && SameShape(cfg.agents, views, inboxes, views', inboxes')
    ensures At(cfg, acts, w, views', inboxes')
  {
    forall y | y in cfg.agents
      ensures y in w.nodes && NodeShape(w.nodes[y], y in views', ViewIn(views', y), Pending(inboxes', y))
    {
      assert NodeShape(w.nodes[y], y in views, ViewIn(views, y), Pending(inboxes, y));
    }
  }

  // --------------------------------------------------------------------------- several steps together

  ghost predicate Three(cfg: Config, c: Member, a: Member, b: Member) {
    c.name in cfg.agents && a.name in cfg.agents && b.name in cfg.agents && c.active && a.active && b.active &&
    c.name != a.name && c.name != b.name && a.name != b.name
  }

  /** The acts of an agent that asks the lone founder. */
  function Ask(m: Member, c: Member): seq<Act> {
    [ReadList(m, c.name, [c])] + [Answer(m.name, c.name)]
  }

  /** The join of `m` through the lone founder `c` is at the stage. */
  ghost predicate JoinsFounder(w: World, m: Member, c: Member, stage: Stage) {
    m.name in w.joining &&
    var r := w.joining[m.name];
    r.m == m && r.view == map[c.name := c] && r.list == [c] && r.stage == stage
  }

  lemma FounderIsListed(c: Member)
    requires c.active
    ensures Lists([c], map[c.name := c]) && map[c.name := c] != map[] && Listed([c], c.name) &&
            c.name in map[c.name := c]
  {
    assert c in [c];
    assert c.name in map[c.name := c];
  }

  lemma TwoMore(acts: seq<Act>, first: Act, second: Act)
    ensures acts + [first] + [second] == acts + ([first] + [second])
  {
  }

  lemma AskFounder(cfg: Config, acts: seq<Act>, w: World, views: Views, inboxes: Inboxes, m: Member, c: Member)
    returns (w': World)
    requires At(cfg, acts, w, views, inboxes) && m.name in cfg.agents && m.active && m.name !in views &&
             m.name !in w.joining
    requires c.name in cfg.agents && c.active && c.name != m.name && c.name in views &&
             views[c.name] == map[c.name := c]
    ensures At(cfg, acts + Ask(m, c), w', views[m.name := map[]], inboxes)
    ensures JoinsFounder(w', m, c, Asking) && w'.joining == w.joining[m.name := w'.joining[m.name]]
  {
    FounderIsListed(c);
    TwoMore(acts, ReadList(m, c.name, [c]), Answer(m.name, c.name));
    w' := ReadStep(cfg, acts, w, views, inboxes, m, c.name, [c]);
    var r := w'.joining[m.name];
    w' := AnswerStep(cfg, acts + [ReadList(m, c.name, [c])], w', views[m.name := map[]], inboxes, m.name, c.name);
    Overwritten(w.joining, m.name, r, w'.joining[m.name]);
  }

  lemma Overwritten(joining: map<string, Joining>, x: string, r: Joining, r': Joining)
    ensures joining[x := r][x := r'] == joining[x := r']
  {
  }

  lemma EnterFounder(cfg: Config, acts: seq<Act>, w: World, views: Views, inboxes: Inboxes, m: Member, c: Member)
    returns (w': World)
    requires At(cfg, acts, w, views, inboxes) && m.name in cfg.agents && m.name in views && views[m.name] == map[]
    requires JoinsFounder(w, m, c, Asking) && m.name != c.name
    ensures At(cfg, acts + Enters(m.name), w', views[m.name := map[c.name := c][m.name := m]], inboxes)
    ensures JoinsFounder(w', m, c, Entered) && w'.joining == w.joining[m.name := w'.joining[m.name]]
  {
    TwoMore(acts, Check(m.name), Enter(m.name));
    w' := CheckStep(cfg, acts, w, views, inboxes, m.name);
    Overwritten(w.joining, m.name, w'.joining[m.name], w'.joining[m.name].(stage := Entered));
    w' := EnterStep(cfg, acts + [Check(m.name)], w', views, inboxes, m.name);
  }

  // ------------------------------------------------------------------------------- overlapping joins

  /** The views of three agents. */
  function ViewsOf(c: Member, a: Member, b: Member, ofC: map<string, Member>, ofA: map<string, Member>,
                   ofB: map<string, Member>): Views {
    map[c.name := ofC, a.name := ofA, b.name := ofB]
  }

  /** Updating the views of three agents one by one. */
  lemma UpdateFounder(c: Member, a: Member, b: Member, ofC: map<string, Member>, ofA: map<string, Member>,
                      ofB: map<string, Member>, v: map<string, Member>)
    requires c.name != a.name && c.name != b.name && a.name != b.name
    ensures ViewsOf(c, a, b, ofC, ofA, ofB)[c.name := v] == ViewsOf(c, a, b, v, ofA, ofB)
  {
  }

  lemma UpdateFirst(c: Member, a: Member, b: Member, ofC: map<string, Member>, ofA: map<string, Member>,
                    ofB: map<string, Member>, v: map<string, Member>)
    requires c.name != a.name && c.name != b.name && a.name != b.name
    ensures ViewsOf(c, a, b, ofC, ofA, ofB)[a.name := v] == ViewsOf(c, a, b, ofC, v, ofB)
  {
  }

  lemma UpdateSecond(c: Member, a: Member, b: Member, ofC: map<string, Member>, ofA: map<string, Member>,
                     ofB: map<string, Member>, v: map<string, Member>)
    requires c.name != a.name && c.name != b.name && a.name != b.name
    ensures ViewsOf(c, a, b, ofC, ofA, ofB)[b.name := v] == ViewsOf(c, a, b, ofC, ofA, v)
  {
  }

  lemma ViewsFetched(c: Member, a: Member, b: Member, ofC: map<string, Member>, ofA: map<string, Member>,
                     ofB: map<string, Member>)
    requires c.name != a.name && c.name != b.name && a.name != b.name
    ensures var views := ViewsOf(c, a, b, ofC, ofA, ofB);
            c.name in views && a.name in views && b.name in views &&
            views[c.name] == ofC && views[a.name] == ofA && views[b.name] == ofB
  {
  }

  /** Telling `m` to `{c, m}` reaches `c` only. */
  lemma ToldOnly(agents: set<string>, views: Views, c: Member, m: Member, pending: set<Member>)
    requires c.name != m.name
    ensures SameShape(agents, views, Told(agents, map[c.name := pending], map[c.name := c][m.name := m], m), views,
                      map[c.name := pending + {m}])
  {
  }

  lemma InboxUpdated(agents: set<string>, views: Views, c: string, pending: set<Member>, after: set<Member>)
    ensures SameShape(agents, views, map[c := pending][c := after], views, map[c := after])
    ensures SameShape(agents, views, map[c := {}], views, map[])
    ensures SameShape(agents, views, map[], views, map[c := {}])
  {
  }

  /** Both joiners ask the founder. */
  lemma BothAsk(cfg: Config, c: Member, a: Member, b: Member) returns (w: World)
    requires Three(cfg, c, a, b)
    ensures At(cfg, [Found(c)] + Ask(a, c) + Ask(b, c), w, ViewsOf(c, a, b, map[c.name := c], map[], map[]), map[])
    ensures JoinsFounder(w, a, c, Asking) && JoinsFounder(w, b, c, Asking)
  {
    var views := map[c.name := map[c.name := c]];
    w := FoundStep(cfg, c);
    w := AskFounder(cfg, [Found(c)], w, views, map[], a, c);
    w := AskFounder(cfg, [Found(c)] + Ask(a, c), w, views[a.name := map[]], map[], b, c);
    AskedViews(c, a, b, map[c.name := c]);
  }

  lemma AskedViews(c: Member, a: Member, b: Member, ofC: map<string, Member>)
    requires c.name != a.name && c.name != b.name && a.name != b.name
    ensures map[c.name := ofC][a.name := map[]][b.name := map[]] == ViewsOf(c, a, b, ofC, map[], map[])
  {
  }

  function Enters(x: string): seq<Act> {
    [Check(x)] + [Enter(x)]
  }

  /** Then both check and enter. */
  lemma BothEnter(cfg: Config, acts: seq<Act>, w: World, c: Member, a: Member, b: Member) returns (w': World)
    requires Three(cfg, c, a, b) && At(cfg, acts, w, ViewsOf(c, a, b, map[c.name := c], map[], map[]), map[])
    requires JoinsFounder(w, a, c, Asking) && JoinsFounder(w, b, c, Asking)
    ensures var ofC := map[c.name := c];
            At(cfg, acts + Enters(a.name) + Enters(b.name), w',
               ViewsOf(c, a, b, ofC, ofC[a.name := a], ofC[b.name := b]), map[])
    ensures JoinsFounder(w', a, c, Entered) && JoinsFounder(w', b, c, Entered)
  {
    var ofC := map[c.name := c];
    var ofA, ofB := ofC[a.name := a], ofC[b.name := b];
    ViewsFetched(c, a, b, ofC, map[], map[]);
    w' := EnterFounder(cfg, acts, w, ViewsOf(c, a, b, ofC, map[], map[]), map[], a, c);
    var acts' := acts + Enters(a.name);
    UpdateFirst(c, a, b, ofC, map[], map[], ofA);
    ViewsFetched(c, a, b, ofC, ofA, map[]);
    w' := EnterFounder(cfg, acts', w', ViewsOf(c, a, b, ofC, ofA, map[]), map[], b, c);
    UpdateSecond(c, a, b, ofC, ofA, map[], ofB);
  }

  /** One of them announces itself, to the founder only. */
  lemma AnnounceToFounder(cfg: Config, acts: seq<Act>, w: World, views: Views, m: Member, c: Member,
                          pending: set<Member>)
    returns (w': World)
    requires At(cfg, acts, w, views, map[c.name := pending]) && JoinsFounder(w, m, c, Entered)
    requires m.name in cfg.agents && m.name != c.name && m.name in views &&
             views[m.name] == map[c.name := c][m.name := m]
    ensures At(cfg, acts + [Announce(m.name)], w', views, map[c.name := pending + {m}]) &&
            w'.joining == w.joining - {m.name}
  {
    w' := AnnounceStep(cfg, acts, w, views, map[c.name := pending], m.name);
    ToldOnly(cfg.agents, views, c, m, pending);
    Reshape(cfg, acts + [Announce(m.name)], w', views,
            Told(cfg.agents, map[c.name := pending], views[m.name], m), views,
            map[c.name := pending + {m}]);
  }

  /** Then both announce themselves. */
  lemma BothAnnounce(cfg: Config, acts: seq<Act>, w: World, views: Views, c: Member, a: Member, b: Member)
    returns (w': World)
    requires Three(cfg, c, a, b) && JoinsFounder(w, a, c, Entered) && JoinsFounder(w, b, c, Entered)
    requires At(cfg, acts, w, views, map[]) && a.name in views && b.name in views
    requires views[a.name] == map[c.name := c][a.name := a] && views[b.name] == map[c.name := c][b.name := b]
    ensures At(cfg, acts + [Announce(a.name)] + [Announce(b.name)], w', views, map[c.name := {a} + {b}])
  {
    InboxUpdated(cfg.agents, views, c.name, {}, {});
    Reshape(cfg, acts, w, views, map[], views, map[c.name := {}]);
    w' := AnnounceToFounder(cfg, acts, w, views, a, c, {});
    assert {} + {a} == {a};
    w' := AnnounceToFounder(cfg, acts + [Announce(a.name)], w', views, b, c, {a});
  }

  /** The founder processes one status. */
  lemma FounderProcesses(cfg: Config, acts: seq<Act>, w: World, c: Member, a: Member, b: Member,
                         ofC: map<string, Member>, ofA: map<string, Member>, ofB: map<string, Member>,
                         pending: set<Member>, m: Member) returns (w': World)
    requires Three(cfg, c, a, b) && m in pending && StatusView(ofC, m) != map[]
    requires At(cfg, acts, w, ViewsOf(c, a, b, ofC, ofA, ofB), map[c.name := pending])
    ensures At(cfg, acts + [Process(c.name, m)], w', ViewsOf(c, a, b, StatusView(ofC, m), ofA, ofB),
               map[c.name := pending - {m}])
    ensures w'.joining == w.joining
  {
    ViewsFetched(c, a, b, ofC, ofA, ofB);
    var views, inboxes := ViewsOf(c, a, b, ofC, ofA, ofB), map[c.name := pending];
    w' := ProcessStep(cfg, acts, w, views, inboxes, c.name, m);
    var acts', v := acts + [Process(c.name, m)], StatusView(ofC, m);
    UpdateFounder(c, a, b, ofC, ofA, ofB, v);
    InboxUpdated(cfg.agents, ViewsOf(c, a, b, v, ofA, ofB), c.name, pending, pending - {m});
    Reshape(cfg, acts', w', ViewsOf(c, a, b, v, ofA, ofB), inboxes[c.name := pending - {m}],
            ViewsOf(c, a, b, v, ofA, ofB), map[c.name := pending - {m}]);
  }

  /** Then the founder processes both statuses. */
  lemma BothProcessed(cfg: Config, acts: seq<Act>, w: World, c: Member, a: Member, b: Member, ofA: map<string, Member>,
                      ofB: map<string, Member>) returns (w': World)
    requires Three(cfg, c, a, b) &&
             At(cfg, acts, w, ViewsOf(c, a, b, map[c.name := c], ofA, ofB), map[c.name := {a} + {b}])
    ensures At(cfg, acts + [Process(c.name, a)] + [Process(c.name, b)], w',
               ViewsOf(c, a, b, map[c.name := c][a.name := a][b.name := b], ofA, ofB), map[])
  {
    var ofC := map[c.name := c];
    assert c.name in ofC[a.name := a] && c.name in ofC[a.name := a][b.name := b] && a != b;
    w' := FounderProcesses(cfg, acts, w, c, a, b, ofC, ofA, ofB, {a} + {b}, a);
    assert {a} + {b} - {a} == {b};
    w' := FounderProcesses(cfg, acts + [Process(c.name, a)], w', c, a, b, ofC[a.name := a], ofA, ofB, {b}, b);
    assert {b} - {b} == {};
    var views := ViewsOf(c, a, b, ofC[a.name := a][b.name := b], ofA, ofB);
    InboxUpdated(cfg.agents, views, c.name, {}, {});
    Reshape(cfg, acts + [Process(c.name, a)] + [Process(c.name, b)], w', views, map[c.name := {}], views, map[]);
  }

  /** Nothing is left to process; the founder knows both joiners, and neither joiner knows the other. */
  ghost predicate EndsApart(s: State, c: Member, a: Member, b: Member) {
    Quiescent(s) && Roster(s) == map[c.name := c][a.name := a][b.name := b] &&
    c.name in s && a.name in s && b.name in s && View(s[c.name]) == Roster(s) &&
    View(s[a.name]) == Roster(s) - {b.name} && View(s[b.name]) == Roster(s) - {a.name}
  }

  /** Why joins have to be serialised: for any three agents, in any mode and with or without the consistency check,
      a history in which two joins overlap ends with the joiners apart. */
  lemma OverlappingJoinsDiverge(cfg: Config, c: Member, a: Member, b: Member)
    returns (worlds: seq<World>, acts: seq<Act>)
    requires Three(cfg, c, a, b)
    ensures acts ==
            [Found(c)] + Ask(a, c) + Ask(b, c) + Enters(a.name) + Enters(b.name) +
            [Announce(a.name)] + [Announce(b.name)] +
                    [Process(c.name, a)] + [Process(c.name, b)]
    ensures History(cfg, worlds, acts) && EndsApart(worlds[|acts|].nodes, c, a, b)
  {
    var ofC := map[c.name := c];
    var w := BothAsk(cfg, c, a, b);
    acts := [Found(c)] + Ask(a, c) + Ask(b, c);
    w := BothEnter(cfg, acts, w, c, a, b);
    acts := acts + Enters(a.name) + Enters(b.name);
    ViewsFetched(c, a, b, ofC, ofC[a.name := a], ofC[b.name := b]);
    w := BothAnnounce(cfg, acts, w, ViewsOf(c, a, b, ofC, ofC[a.name := a], ofC[b.name := b]), c, a, b);
    acts := acts + [Announce(a.name)] + [Announce(b.name)];
    w := BothProcessed(cfg, acts, w, c, a, b, ofC[a.name := a], ofC[b.name := b]);
    acts := acts + [Process(c.name, a)] + [Process(c.name, b)];
    JoinersApart(cfg, w, c, a, b);
    worlds := HistoryOf(cfg, acts, w);
  }

  lemma JoinersApart(cfg: Config, w: World, c: Member, a: Member, b: Member)
    requires Three(cfg, c, a, b)
    requires var ofC := map[c.name := c];
             Shape(cfg, w, ViewsOf(c, a, b, ofC[a.name := a][b.name := b], ofC[a.name := a], ofC[b.name := b]), map[])
    ensures EndsApart(w.nodes, c, a, b)
  {
    var ofC := map[c.name := c];
    var full := ofC[a.name := a][b.name := b];
    var views := ViewsOf(c, a, b, full, ofC[a.name := a], ofC[b.name := b]);
    ViewsFetched(c, a, b, full, ofC[a.name := a], ofC[b.name := b]);
    FullViews(c, a, b);
    OwnRecords(c, a, b, views);
    ShapeRoster(cfg, w, views, map[]);
    ShapeNodes(cfg, w, views, map[]);
  }

  lemma ShapeNodes(cfg: Config, w: World, views: Views, inboxes: Inboxes)
    requires Shape(cfg, w, views, inboxes)
    ensures forall y :: y in w.nodes ==> w.nodes[y].inbox == Pending(inboxes, y) && View(w.nodes[y]) == ViewIn(views, y)
  {
    forall y | y in w.nodes ensures w.nodes[y].inbox == Pending(inboxes, y) && View(w.nodes[y]) == ViewIn(views, y) {
      assert NodeShape(w.nodes[y], y in views, ViewIn(views, y), Pending(inboxes, y));
    }
  }

  lemma FullViews(c: Member, a: Member, b: Member)
    requires c.name != a.name && c.name != b.name && a.name != b.name
    ensures var ofC := map[c.name := c];
            var full := ofC[a.name := a][b.name := b];
            full - {b.name} == ofC[a.name := a] && full - {a.name} == ofC[b.name := b] &&
            c.name in full && full[c.name] == c && a.name in ofC[a.name := a] && b.name in ofC[b.name := b]
  {
  }

  lemma OwnRecords(c: Member, a: Member, b: Member, views: Views)
    requires c.name != a.name && c.name != b.name && a.name != b.name && views.Keys == {c.name, a.name, b.name}
    requires c.name in views[c.name] && views[c.name][c.name] == c
    requires a.name in views[a.name] && views[a.name][a.name] == a
    requires b.name in views[b.name] && views[b.name][b.name] == b
    ensures forall x :: x in views ==> x in views[x]
    ensures (map x | x in views && x in views[x] :: views[x][x]) == map[c.name := c][a.name := a][b.name := b]
  {
  }

  // --------------------------------------------------- a departure between the check and the announcement

  function Both(c: Member, d: Member): map<string, Member> {
    map[c.name := c][d.name := d]
  }

  function Pair(c: string, d: string, ofC: map<string, Member>, ofD: map<string, Member>): Views {
    map[c := ofC][d := ofD]
  }

  /** The acts after which `c` and `d` form a group with nothing left to process. */
  function PairActs(c: Member, d: Member): seq<Act> {
    [Found(c)] + Ask(d, c) + Enters(d.name) + [Announce(d.name)] + [Process(c.name, d)]
  }

  lemma UpdatePair(c: string, d: string, u: map<string, Member>, v: map<string, Member>, u': map<string, Member>,
                   v': map<string, Member>)
    requires c != d
    ensures Pair(c, d, u, v)[c := u'] == Pair(c, d, u', v) && Pair(c, d, u, v)[d := v'] == Pair(c, d, u, v')
    ensures c in Pair(c, d, u, v) && Pair(c, d, u, v)[c] == u && d in Pair(c, d, u, v) && Pair(c, d, u, v)[d] == v
    ensures Pair(c, d, u, v) - {d} == map[c := u]
  {
  }

  lemma PairSettles(cfg: Config, c: Member, d: Member) returns (w: World)
    requires c.name in cfg.agents && d.name in cfg.agents && c.active && d.active && c.name != d.name
    ensures At(cfg, PairActs(c, d), w, Pair(c.name, d.name, Both(c, d), Both(c, d)), map[]) && w.joining == map[]
  {
    var ofC := map[c.name := c];
    var acts := [Found(c)] + Ask(d, c);
    w := PairAsks(cfg, c, d);
    UpdatePair(c.name, d.name, ofC, map[], Both(c, d), Both(c, d));
    w := EnterFounder(cfg, acts, w, Pair(c.name, d.name, ofC, map[]), map[], d, c);
    w := PairAnnounces(cfg, acts + Enters(d.name), w, c, d);
  }

  lemma PairAsks(cfg: Config, c: Member, d: Member) returns (w: World)
    requires c.name in cfg.agents && d.name in cfg.agents && c.active && d.active && c.name != d.name
    ensures At(cfg, [Found(c)] + Ask(d, c), w, Pair(c.name, d.name, map[c.name := c], map[]), map[])
    ensures JoinsFounder(w, d, c, Asking) && w.joining.Keys == {d.name}
  {
    w := FoundStep(cfg, c);
    w := AskFounder(cfg, [Found(c)], w, map[c.name := map[c.name := c]], map[], d, c);
  }

  lemma PairAnnounces(cfg: Config, acts: seq<Act>, w: World, c: Member, d: Member) returns (w': World)
    requires c.name in cfg.agents && d.name in cfg.agents && c.active && d.active && c.name != d.name
    requires At(cfg, acts, w, Pair(c.name, d.name, map[c.name := c], Both(c, d)), map[])
    requires JoinsFounder(w, d, c, Entered) && w.joining.Keys == {d.name}
    ensures At(cfg, acts + [Announce(d.name)] + [Process(c.name, d)], w',
               Pair(c.name, d.name, Both(c, d), Both(c, d)), map[])
    ensures w'.joining == map[]
  {
    var ofC := map[c.name := c];
    var views := Pair(c.name, d.name, ofC, Both(c, d));
    UpdatePair(c.name, d.name, ofC, Both(c, d), Both(c, d), Both(c, d));
    InboxUpdated(cfg.agents, views, c.name, {}, {});
    Reshape(cfg, acts, w, views, map[], views, map[c.name := {}]);
    w' := AnnounceToFounder(cfg, acts, w, views, d, c, {});
    assert {} + {d} == {d} && {d} - {d} == {};
    assert c.name in StatusView(ofC, d);
    w' := ProcessStep(cfg, acts + [Announce(d.name)], w', views, map[c.name := {d}], c.name, d);
    Settle(cfg, acts + [Announce(d.name)] + [Process(c.name, d)], w', views[c.name := Both(c, d)], c.name, d);
  }

  /** The last status of `x` has been processed. */
  lemma Settle(cfg: Config, acts: seq<Act>, w: World, views: Views, x: string, m: Member)
    requires At(cfg, acts, w, views, map[x := {m}][x := {m} - {m}])
    ensures At(cfg, acts, w, views, map[])
  {
    Reshape(cfg, acts, w, views, map[x := {m}][x := {m} - {m}], views, map[]);
  }

  /** The acts of a joiner that asks both, and passes the check. */
  function AskBoth(a: Member, c: Member, d: Member): seq<Act> {
    [ReadList(a, c.name, [c, d])] + [Answer(a.name, c.name)] + [Answer(a.name, d.name)] + [Check(a.name)]
  }

  lemma BothAreListed(c: Member, d: Member)
    requires c.active && d.active && c.name != d.name
    ensures Lists([c, d], Both(c, d)) && Both(c, d) != map[] && Listed([c, d], c.name) && Listed([c, d], d.name)
    ensures c.name in Both(c, d) && d.name in Both(c, d) && Both(c, d)[d.name] == d && Both(c, d)[c.name] == c
    ensures Both(c, d).Keys == {c.name, d.name}
  {
    assert [c, d][0] == c && [c, d][1] == d;
    assert c.name in Both(c, d);
  }

  /** The join of `a` has passed the check on the list of both. */
  ghost predicate HasChecked(w: World, a: Member, c: Member, d: Member) {
    w.joining.Keys == {a.name} &&
    var r := w.joining[a.name];
    r.m == a && r.view == Both(c, d) && r.stage == Checked
  }

  /** The joiner reads the list of both, and both answer; the check passes, whatever the parameters. */
  lemma AsksBoth(cfg: Config, acts: seq<Act>, w: World, views: Views, c: Member, d: Member, a: Member)
    returns (w': World)
    requires Three(cfg, c, d, a) && At(cfg, acts, w, views, map[]) && w.joining == map[] && a.name !in views
    requires c.name in views && d.name in views && views[c.name] == Both(c, d) && views[d.name] == Both(c, d)
    ensures At(cfg, acts + AskBoth(a, c, d), w', views[a.name := map[]], map[]) && HasChecked(w', a, c, d)
  {
    var read, asked := ReadList(a, c.name, [c, d]), views[a.name := map[]];
    FourMore(acts, read, Answer(a.name, c.name), Answer(a.name, d.name), Check(a.name));
    w' := ReadsBoth(cfg, acts, w, views, c, d, a);
    w' := AnsweredBy(cfg, acts + [read], w', asked, c, d, a, c);
    w' := AnsweredBy(cfg, acts + [read] + [Answer(a.name, c.name)], w', asked, c, d, a, d);
    w' := PassesCheck(cfg, acts + [read] + [Answer(a.name, c.name)] + [Answer(a.name, d.name)], w', asked, c, d, a);
  }

  /** `a` has read the list of both, through `c`. */
  ghost predicate HasAsked(w: World, a: Member, c: Member, d: Member) {
    w.joining.Keys == {a.name} &&
    var r := w.joining[a.name];
    r.m == a && r.acceptor == c.name && r.view == Both(c, d) && r.list == [c, d] && r.stage == Asking
  }

  lemma AnsweredBy(cfg: Config, acts: seq<Act>, w: World, asked: Views, c: Member, d: Member, a: Member, m: Member)
    returns (w': World)
    requires Three(cfg, c, d, a) && At(cfg, acts, w, asked, map[]) && a.name in asked
    requires HasAsked(w, a, c, d) && m in [c, d] && m.name !in w.joining[a.name].answers
    requires m.name in asked && asked[m.name] == Both(c, d)
    ensures At(cfg, acts + [Answer(a.name, m.name)], w', asked, map[]) && HasAsked(w', a, c, d)
    ensures w'.joining[a.name].answers.Keys == w.joining[a.name].answers.Keys + {m.name}
    ensures m.name in w'.joining[a.name].held && w'.joining[a.name].held[m.name] == Both(c, d)
  {
    BothAreListed(c, d);
    w' := AnswerStep(cfg, acts, w, asked, map[], a.name, m.name);
  }

  lemma PassesCheck(cfg: Config, acts: seq<Act>, w: World, asked: Views, c: Member, d: Member, a: Member)
    returns (w': World)
    requires Three(cfg, c, d, a) && At(cfg, acts, w, asked, map[]) && a.name in asked && HasAsked(w, a, c, d)
    requires d.name in w.joining[a.name].held && w.joining[a.name].held[d.name] == Both(c, d)
    ensures At(cfg, acts + [Check(a.name)], w', asked, map[]) && HasChecked(w', a, c, d)
  {
    BothAreListed(c, d);
    w' := CheckStep(cfg, acts, w, asked, map[], a.name);
  }

  lemma ReadsBoth(cfg: Config, acts: seq<Act>, w: World, views: Views, c: Member, d: Member, a: Member)
    returns (w': World)
    requires Three(cfg, c, d, a) && At(cfg, acts, w, views, map[]) && w.joining == map[] && a.name !in views
    requires c.name in views && views[c.name] == Both(c, d)
    ensures At(cfg, acts + [ReadList(a, c.name, [c, d])], w', views[a.name := map[]], map[])
    ensures HasAsked(w', a, c, d) && w'.joining[a.name].answers == map[]
  {
    BothAreListed(c, d);
    w' := ReadStep(cfg, acts, w, views, map[], a, c.name, [c, d]);
  }

  lemma FourMore(acts: seq<Act>, first: Act, second: Act, third: Act, fourth: Act)
    ensures acts + [first] + [second] + [third] + [fourth] == acts + ([first] + [second] + [third] + [fourth])
  {
  }

  /** After the check `d` departs and `c` processes that; then the joiner enters and announces itself, and `c` and the
      departed `d` get its status. */
  function DepartActs(a: Member, c: Member, d: Member): seq<Act> {
    [Depart(d.name)] + [Process(c.name, d.(active := false))]
  }

  lemma DepartsUnseen(cfg: Config, acts: seq<Act>, w: World, c: Member, d: Member, a: Member) returns (w': World)
    requires Three(cfg, c, d, a) && HasChecked(w, a, c, d)
    requires At(cfg, acts, w, Pair(c.name, d.name, Both(c, d), Both(c, d))[a.name := map[]], map[])
    ensures At(cfg, acts + DepartActs(a, c, d), w', Pair(c.name, a.name, map[c.name := c], map[]), map[]) &&
            w'.joining == w.joining
  {
    var views, gone := Pair(c.name, d.name, Both(c, d), Both(c, d))[a.name := map[]], d.(active := false);
    BothAreListed(c, d);
    w' := DepartStep(cfg, acts, w, views, map[], d.name);
    var acts', views' := acts + [Depart(d.name)], Pair(c.name, a.name, Both(c, d), map[]);
    DepartedShape(cfg.agents, c, d, a);
    Reshape(cfg, acts', w', views - {d.name}, Told(cfg.agents, map[], Both(c, d), gone), views', map[c.name := {gone}]);
    UpdatePair(c.name, a.name, Both(c, d), map[], map[c.name := c], map[]);
    OneLeft(c, d);
    w' := ProcessStep(cfg, acts', w', views', map[c.name := {gone}], c.name, gone);
    Settle(cfg, acts' + [Process(c.name, gone)], w', views'[c.name := map[c.name := c]], c.name, gone);
    TwoMore(acts, Depart(d.name), Process(c.name, gone));
  }

  lemma OneLeft(c: Member, d: Member)
    requires c.name != d.name
    ensures map[c.name := c] != map[] && StatusView(Both(c, d), d.(active := false)) == map[c.name := c]
  {
    assert c.name in map[c.name := c];
  }

  lemma DepartedShape(agents: set<string>, c: Member, d: Member, a: Member)
    requires c.name != d.name && c.name != a.name && d.name != a.name
    ensures var gone := d.(active := false);
            SameShape(agents, Pair(c.name, d.name, Both(c, d), Both(c, d))[a.name := map[]] - {d.name},
                      Told(agents, map[], Both(c, d), gone),
                      Pair(c.name, a.name, Both(c, d), map[]), map[c.name := {gone}])
  {
  }

  function AnnounceActs(a: Member, c: Member, d: Member): seq<Act> {
    [Enter(a.name)] + [Announce(a.name)] + [Process(c.name, a)] + [Process(d.name, a)]
  }

  lemma EntersStale(cfg: Config, acts: seq<Act>, w: World, c: Member, d: Member, a: Member) returns (w': World)
    requires Three(cfg, c, d, a) && HasChecked(w, a, c, d)
    requires At(cfg, acts, w, Pair(c.name, a.name, map[c.name := c], map[]), map[])
    ensures At(cfg, acts + AnnounceActs(a, c, d), w',
               Pair(c.name, a.name, map[c.name := c][a.name := a], Both(c, d)[a.name := a]), map[])
  {
    var ofC, ofA := map[c.name := c], Both(c, d)[a.name := a];
    BothAreListed(c, d);
    UpdatePair(c.name, a.name, ofC, map[], ofC[a.name := a], ofA);
    w' := EnterStep(cfg, acts, w, Pair(c.name, a.name, ofC, map[]), map[], a.name);
    UpdatePair(c.name, a.name, ofC, ofA, ofC[a.name := a], ofA);
    var acts1 := acts + [Enter(a.name)];
    w' := AnnounceStep(cfg, acts1, w', Pair(c.name, a.name, ofC, ofA), map[], a.name);
    StaleTold(cfg.agents, Pair(c.name, a.name, ofC, ofA), c, d, a);
    Reshape(cfg, acts1 + [Announce(a.name)], w', Pair(c.name, a.name, ofC, ofA), Told(cfg.agents, map[], ofA, a),
            Pair(c.name, a.name, ofC, ofA), map[c.name := {a}][d.name := {a}]);
    w' := BothProcessStale(cfg, acts1 + [Announce(a.name)], w', c, d, a);
    FourMore(acts, Enter(a.name), Announce(a.name), Process(c.name, a), Process(d.name, a));
  }

  lemma StaleTold(agents: set<string>, views: Views, c: Member, d: Member, a: Member)
    requires c.name != d.name && c.name != a.name && d.name != a.name
    ensures SameShape(agents, views, Told(agents, map[], Both(c, d)[a.name := a], a), views,
                      map[c.name := {a}][d.name := {a}])
  {
  }

  lemma BothProcessStale(cfg: Config, acts: seq<Act>, w: World, c: Member, d: Member, a: Member) returns (w': World)
    requires Three(cfg, c, d, a)
    requires At(cfg, acts, w, Pair(c.name, a.name, map[c.name := c], Both(c, d)[a.name := a]),
                map[c.name := {a}][d.name := {a}])
    ensures At(cfg, acts + [Process(c.name, a)] + [Process(d.name, a)], w',
               Pair(c.name, a.name, map[c.name := c][a.name := a], Both(c, d)[a.name := a]), map[])
  {
    var ofC, ofA, inboxes := map[c.name := c], Both(c, d)[a.name := a], map[c.name := {a}][d.name := {a}];
    UpdatePair(c.name, a.name, ofC, ofA, ofC[a.name := a], ofA);
    assert a.name in StatusView(ofC, a);
    w' := ProcessStep(cfg, acts, w, Pair(c.name, a.name, ofC, ofA), inboxes, c.name, a);
    var acts', views := acts + [Process(c.name, a)], Pair(c.name, a.name, ofC[a.name := a], ofA);
    StaleLeft(cfg.agents, views, c, d, a);
    Reshape(cfg, acts', w', views, inboxes[c.name := {a} - {a}], views, map[d.name := {a}]);
    assert d.name !in views;
    w' := ProcessStep(cfg, acts', w', views, map[d.name := {a}], d.name, a);
    Settle(cfg, acts' + [Process(d.name, a)], w', views, d.name, a);
  }

  lemma StaleLeft(agents: set<string>, views: Views, c: Member, d: Member, a: Member)
    requires c.name != d.name
    ensures SameShape(agents, views, map[c.name := {a}][d.name := {a}][c.name := {a} - {a}], views, map[d.name := {a}])
  {
  }

  /** Nothing is left to process; the joiner still has the departed `d`, and the others do not. */
  ghost predicate EndsStale(s: State, c: Member, d: Member, a: Member) {
    Quiescent(s) && Roster(s) == map[c.name := c][a.name := a] && c.name in s && a.name in s &&
    View(s[c.name]) == Roster(s) && View(s[a.name]) == Roster(s)[d.name := d]
  }

  /** The check does not keep departed members out: for any three agents, in any mode and with or without the
      consistency check, a history in which `d` answers the joiner `a`, and departs after the check and before the
      announcement, ends with `d` in the view of `a` for good. */
  lemma DepartureAfterCheckStays(cfg: Config, c: Member, d: Member, a: Member)
    returns (worlds: seq<World>, acts: seq<Act>)
    requires Three(cfg, c, d, a)
    ensures acts == PairActs(c, d) + AskBoth(a, c, d) + DepartActs(a, c, d) + AnnounceActs(a, c, d)
    ensures History(cfg, worlds, acts) && EndsStale(worlds[|acts|].nodes, c, d, a)
  {
    var both := Both(c, d);
    UpdatePair(c.name, d.name, both, both, both, both);
    var w := PairSettles(cfg, c, d);
    w := AsksBoth(cfg, PairActs(c, d), w, Pair(c.name, d.name, both, both), c, d, a);
    acts := PairActs(c, d) + AskBoth(a, c, d);
    w := DepartsUnseen(cfg, acts, w, c, d, a);
    acts := acts + DepartActs(a, c, d);
    w := EntersStale(cfg, acts, w, c, d, a);
    acts := acts + AnnounceActs(a, c, d);
    StaleEnd(cfg, w, c, d, a);
    worlds := HistoryOf(cfg, acts, w);
  }

  lemma StaleEnd(cfg: Config, w: World, c: Member, d: Member, a: Member)
    requires Three(cfg, c, d, a)
    requires Shape(cfg, w, Pair(c.name, a.name, map[c.name := c][a.name := a], Both(c, d)[a.name := a]), map[])
    ensures EndsStale(w.nodes, c, d, a)
  {
    var ofC, ofA := map[c.name := c][a.name := a], Both(c, d)[a.name := a];
    var views := Pair(c.name, a.name, ofC, ofA);
    UpdatePair(c.name, a.name, ofC, ofA, ofC, ofA);
    PairRecords(c, d, a);
    ShapeRoster(cfg, w, views, map[]);
    ShapeNodes(cfg, w, views, map[]);
  }

  lemma PairRecords(c: Member, d: Member, a: Member)
    requires c.name != d.name && c.name != a.name && d.name != a.name
    ensures var ofC, ofA := map[c.name := c][a.name := a], Both(c, d)[a.name := a];
            var views := Pair(c.name, a.name, ofC, ofA);
            views.Keys == {c.name, a.name} && (forall x :: x in views ==> x in views[x]) && ofA == ofC[d.name := d] &&
            (map x | x in views && x in views[x] :: views[x][x]) == ofC
  {
  }
}
