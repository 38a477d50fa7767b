/** Joins that overlap still converge as long as nobody enters on a stale list or departs unknown: the histories of the
    unserialised protocol in which every list gives the roster of the moment its joiner enters, and every member that
    departs is known to all others and knows them. */
module Convergence {
  import opened Models
  import opened Validator
  import opened GroupStore
  import opened LocalSteps
  import opened Membership
  import opened Overlap

  /** No status of `x` is on its way to a member of the group. */
  ghost predicate NoneAmong(s: State, x: string) {
    forall y :: y in Roster(s) ==> forall m :: m in s[y].inbox ==> m.name != x
  }

  /** Everybody in the group has `x` in its view, has processed its joining, and is in its view. */
  ghost predicate Known(s: State, x: string) {
    x in s &&
    forall y :: y in Roster(s) && y != x ==>
      x in View(s[y]) && y in View(s[x]) && forall m :: m in s[y].inbox && m.active ==> m.name != x
  }

  /** Conditions that can be checked before the act: a founder finds no group, a joiner's list gives the roster, and
      a leaver is known. */
  ghost predicate Orderly(w: World, act: Act) {
    match act
    case Found(m) =>
      m.name in w.nodes && Roster(w.nodes) == map[] && View(w.nodes[m.name]) == map[] && w.nodes[m.name].inbox == {}
    case Enter(x) =>
      x in w.nodes && x in w.joining && w.nodes[x].inbox == {} && NoneAmong(w.nodes, x) &&
      Merged(View(w.nodes[x]), w.joining[x].list) - {x} == Roster(w.nodes) - {x}
    case Depart(x) => Known(w.nodes, x)
    case _ => true
  }

  /** Those who have entered and not yet announced themselves. */
  ghost function Unannounced(joining: map<string, Joining>): set<string> {
    set x | x in joining && joining[x].stage == Entered
  }

  // ------------------------------------------------------------------------------------- invariant

  /** Every entry of a view is on the roster, unless its leaving is on its way. */
  ghost predicate EntriesOk(v: map<string, Member>, inbox: set<Member>, roster: map<string, Member>) {
    forall l :: l in v ==>
      v[l].active && v[l].name == l && if l in roster then roster[l] == v[l] else v[l].(active := false) in inbox
  }

  /** Every roster entry is in the view, unless its joining is on its way or not yet announced. */
  ghost predicate RosterSeen(v: map<string, Member>, inbox: set<Member>, roster: map<string, Member>,
                             unannounced: set<string>) {
    forall l :: l in roster ==> l in v || roster[l] in inbox || l in unannounced
  }

  ghost predicate StatusesOk(v: map<string, Member>, inbox: set<Member>, roster: map<string, Member>) {
    forall m :: m in inbox ==>
      if m.active then m.name in roster && roster[m.name] == m
      else m.name !in roster && m.name in v && m == v[m.name].(active := false)
  }

  ghost predicate ViewFits(v: map<string, Member>, inbox: set<Member>, roster: map<string, Member>,
                           unannounced: set<string>) {
    EntriesOk(v, inbox, roster) && RosterSeen(v, inbox, roster, unannounced) && StatusesOk(v, inbox, roster)
  }

  /** Of any two members one has the other in its view. */
  ghost predicate Linked(s: State, roster: map<string, Member>) {
    forall x, y :: x in roster && y in roster && x != y && x in s && y in s ==> x in View(s[y]) || y in View(s[x])
  }

  /** Nobody is sent its own status, and a joiner is in its own view once it has entered. */
  ghost predicate JoinersOk(w: World) {
    (forall y :: y in w.nodes ==> forall m :: m in w.nodes[y].inbox ==> m.name != y) &&
    forall x :: x in w.joining ==>
      x in w.nodes &&
      if w.joining[x].stage == Entered then x in View(w.nodes[x]) && View(w.nodes[x])[x] == w.joining[x].m
      else x !in View(w.nodes[x])
  }

  ghost predicate GroupOk(w: World, roster: map<string, Member>) {
    Linked(w.nodes, roster) &&
    forall y :: y in roster && y in w.nodes ==>
      ViewFits(View(w.nodes[y]), w.nodes[y].inbox, roster, Unannounced(w.joining))
  }

  ghost predicate Converging(w: World) {
    JoinersOk(w) && GroupOk(w, Roster(w.nodes))
  }

  // ----------------------------------------------------------------------------------- the joiners

  lemma ActKeepsJoiners(cfg: Config, w: World, act: Act)
    requires WorldOk(cfg, w) && Possible(cfg, w, act) && JoinersOk(w)
    ensures JoinersOk(After(cfg, w, act))
  {
    var w' := After(cfg, w, act);
    forall y | y in w.nodes ensures forall m :: m in w'.nodes[y].inbox ==> m.name != y {
      ViewAndInbox(cfg, w, act, y);
      SentStatuses(cfg, w, act, y);
      NotToOneself(cfg, w, act, y);
    }
    forall x | x in w'.joining
      ensures x in w'.nodes
      ensures if w'.joining[x].stage == Entered then x in View(w'.nodes[x]) && View(w'.nodes[x])[x] == w'.joining[x].m
              else x !in View(w'.nodes[x])
    {
      ActKeepsJoiner(cfg, w, act, x);
      ViewAndInbox(cfg, w, act, x);
    }
  }

  lemma NotToOneself(cfg: Config, w: World, act: Act, y: string)
    requires Possible(cfg, w, act) && y in w.nodes
    ensures act == Announce(y) || act == Depart(y) ==> InboxAfter(cfg, w, act, y) == w.nodes[y].inbox
  {
  }

  lemma ActKeepsJoiner(cfg: Config, w: World, act: Act, x: string)
    requires WorldOk(cfg, w) && Possible(cfg, w, act) && JoinersOk(w) && x in JoiningAfter(cfg, w, act)
    ensures x in w.nodes
    ensures var v, r := ViewAfter(cfg, w, act, x), JoiningAfter(cfg, w, act)[x];
            if r.stage == Entered then x in v && v[x] == r.m else x !in v
  {
    if act == Enter(x) {
      EntrantHoldsItself(cfg, w, x);
    }
  }

  lemma EntrantHoldsItself(cfg: Config, w: World, x: string)
    requires WorldOk(cfg, w) && Possible(cfg, w, Enter(x))
    ensures x in ViewAfter(cfg, w, Enter(x), x) && ViewAfter(cfg, w, Enter(x), x)[x] == w.joining[x].m
  {
    var r := w.joining[x];
    assert JoiningOk(cfg, x, r);
    assert (r.list + [r.m])[..|r.list|] == r.list;
  }

  // ------------------------------------------------------------------------------------ the roster

  ghost function RosterAfter(w: World, act: Act): map<string, Member> {
    match act
    case Found(m) => Roster(w.nodes)[m.name := m]
    case Enter(x) => if x in w.joining then Roster(w.nodes)[x := w.joining[x].m] else Roster(w.nodes)
    case Depart(x) => Roster(w.nodes) - {x}
    case _ => Roster(w.nodes)
  }

  lemma OwnEntry(cfg: Config, w: World, act: Act, y: string)
    requires WorldOk(cfg, w) && Possible(cfg, w, act) && JoinersOk(w) && y in w.nodes
    ensures y in ViewAfter(cfg, w, act, y) <==> y in RosterAfter(w, act)
    ensures y in RosterAfter(w, act) ==> ViewAfter(cfg, w, act, y)[y] == RosterAfter(w, act)[y]
  {
    match act
    case Enter(x) => EntrantHoldsItself(cfg, w, x);
    case _ =>
  }

  lemma RosterOfAct(cfg: Config, w: World, act: Act)
    requires WorldOk(cfg, w) && Possible(cfg, w, act) && JoinersOk(w)
    ensures Roster(After(cfg, w, act).nodes) == RosterAfter(w, act)
  {
    var nodes' := After(cfg, w, act).nodes;
    forall y | y in nodes' ensures y in View(nodes'[y]) <==> y in RosterAfter(w, act)
      ensures y in RosterAfter(w, act) ==> View(nodes'[y])[y] == RosterAfter(w, act)[y]
    {
      ViewAndInbox(cfg, w, act, y);
      OwnEntry(cfg, w, act, y);
    }
    RosterOfRecords(nodes', RosterAfter(w, act));
  }

  // ------------------------------------------------------------------------- one view in each act

  lemma EntrantSeen(v: map<string, Member>, inbox: set<Member>, roster: map<string, Member>, un: set<string>, m: Member)
    requires ViewFits(v, inbox, roster, un) && m.name !in roster && m.active
    requires forall s :: s in inbox ==> s.name != m.name
    ensures ViewFits(v, inbox, roster[m.name := m], un + {m.name})
  {
    forall l | l in v && l !in roster ensures l != m.name {
      var s := v[l].(active := false);
      assert s in inbox && s.name == l;
    }
  }

  lemma EntrantFits(roster: map<string, Member>, un: set<string>)
    requires forall l :: l in roster ==> roster[l].active && roster[l].name == l
    ensures ViewFits(roster, {}, roster, un)
  {
  }

  lemma AnnouncementSeen(v: map<string, Member>, inbox: set<Member>, roster: map<string, Member>, un: set<string>,
                         x: string, told: bool)
    requires ViewFits(v, inbox, roster, un) && x in roster && roster[x].active && roster[x].name == x &&
             (told || x in v)
    ensures ViewFits(v, if told then inbox + {roster[x]} else inbox, roster, un - {x})
  {
  }

  lemma DepartureSeen(v: map<string, Member>, inbox: set<Member>, roster: map<string, Member>, un: set<string>,
                      x: string)
    requires ViewFits(v, inbox, roster, un) && x in roster && x in v
    requires forall s :: s in inbox && s.active ==> s.name != x
    ensures ViewFits(v, inbox + {roster[x].(active := false)}, roster - {x}, un)
  {
    assert v[x] == roster[x];
  }

  lemma StatusProcessed(v: map<string, Member>, inbox: set<Member>, roster: map<string, Member>, un: set<string>,
                        m: Member)
    requires ViewFits(v, inbox, roster, un) && m in inbox && Keyed(roster)
    ensures ViewFits(StatusView(v, m), inbox - {m}, roster, un)
    ensures forall l :: l in roster && l in v ==> l in StatusView(v, m)
  {
    var v', inbox' := StatusView(v, m), inbox - {m};
    assert forall s :: s in inbox && s.name == m.name ==> s == m;
    forall l | l in v'
      ensures v'[l].active && v'[l].name == l &&
              if l in roster then roster[l] == v'[l] else v'[l].(active := false) in inbox'
    {
      if l != m.name && l !in roster {
        assert v[l].(active := false).name == l;
      }
    }
  }

  /** With nothing on its way and everybody announced, a view is the roster. */
  lemma SettledFits(v: map<string, Member>, roster: map<string, Member>)
    requires ViewFits(v, {}, roster, {})
    ensures v == roster
  {
    assert forall l :: l in v ==> l in roster && roster[l] == v[l];
    assert forall l :: l in roster ==> l in v;
  }

  // ------------------------------------------------------------------------------------- every act

  lemma RosterIsActive(w: World, x: string)
    requires GroupOk(w, Roster(w.nodes)) && x in Roster(w.nodes)
    ensures Roster(w.nodes)[x].active && Roster(w.nodes)[x].name == x
  {
    assert ViewFits(View(w.nodes[x]), w.nodes[x].inbox, Roster(w.nodes), Unannounced(w.joining));
  }

  lemma UnannouncedAfter(cfg: Config, w: World, act: Act)
    requires Possible(cfg, w, act)
    ensures Unannounced(JoiningAfter(cfg, w, act)) ==
              match act
              case Enter(x) => Unannounced(w.joining) + {x}
              case Announce(x) => Unannounced(w.joining) - {x}
              case _ => Unannounced(w.joining)
  {
  }

  /** What an act makes of the view and the statuses of a member. */
  ghost predicate FitsAfter(cfg: Config, w: World, act: Act, y: string)
    requires Possible(cfg, w, act) && y in w.nodes
  {
    ViewFits(ViewAfter(cfg, w, act, y), InboxAfter(cfg, w, act, y), RosterAfter(w, act),
             Unannounced(JoiningAfter(cfg, w, act)))
  }

  lemma FoundFits(cfg: Config, w: World, m: Member, y: string)
    requires Possible(cfg, w, Found(m)) && Orderly(w, Found(m)) && y in w.nodes && y in RosterAfter(w, Found(m))
    ensures FitsAfter(cfg, w, Found(m), y)
  {
  }

  lemma EnterFits(cfg: Config, w: World, x: string, y: string)
    requires WorldOk(cfg, w) && Converging(w) && Possible(cfg, w, Enter(x)) && Orderly(w, Enter(x))
    requires y in w.nodes && y in RosterAfter(w, Enter(x))
    ensures FitsAfter(cfg, w, Enter(x), y)
  {
    var r, roster := w.joining[x], Roster(w.nodes);
    assert JoiningOk(cfg, x, r) && x !in roster;
    UnannouncedAfter(cfg, w, Enter(x));
    if y == x {
      EntrantHoldsRoster(cfg, w, x);
      var roster': map<string, Member> := roster[x := r.m];
      forall l | l in roster' ensures roster'[l].active && roster'[l].name == l {
        if l != x { RosterIsActive(w, l); }
      }
      EntrantFits(roster', Unannounced(w.joining) + {x});
    } else {
      EntrantSeen(View(w.nodes[y]), w.nodes[y].inbox, roster, Unannounced(w.joining), r.m);
    }
  }

  lemma EntrantHoldsRoster(cfg: Config, w: World, x: string)
    requires WorldOk(cfg, w) && Possible(cfg, w, Enter(x)) && Orderly(w, Enter(x))
    ensures ViewAfter(cfg, w, Enter(x), x) == Roster(w.nodes)[x := w.joining[x].m]
  {
    var r, v := w.joining[x], View(w.nodes[x]);
    assert JoiningOk(cfg, x, r);
    assert (r.list + [r.m])[..|r.list|] == r.list;
    SameButOne(Merged(v, r.list), Roster(w.nodes), x, r.m);
  }

  lemma AnnounceFits(cfg: Config, w: World, x: string, y: string)
    requires WorldOk(cfg, w) && Converging(w) && Possible(cfg, w, Announce(x)) && y in Roster(w.nodes)
    ensures FitsAfter(cfg, w, Announce(x), y)
  {
    var roster, v, inbox := Roster(w.nodes), View(w.nodes[y]), w.nodes[y].inbox;
    assert JoiningOk(cfg, x, w.joining[x]);
    assert x in roster && roster[x] == w.joining[x].m;
    UnannouncedAfter(cfg, w, Announce(x));
    RosterIsActive(w, x);
    assert ViewFits(v, inbox, roster, Unannounced(w.joining));
    AnnouncementSeen(v, inbox, roster, Unannounced(w.joining), x, y != x && y in View(w.nodes[x]));
  }

  lemma DepartFits(cfg: Config, w: World, x: string, y: string)
    requires WorldOk(cfg, w) && Converging(w) && Possible(cfg, w, Depart(x)) && Orderly(w, Depart(x))
    requires y in Roster(w.nodes) && y != x
    ensures FitsAfter(cfg, w, Depart(x), y)
  {
    var roster := Roster(w.nodes);
    assert x in roster && roster[x] == View(w.nodes[x])[x];
    UnannouncedAfter(cfg, w, Depart(x));
    DepartureSeen(View(w.nodes[y]), w.nodes[y].inbox, roster, Unannounced(w.joining), x);
  }

  lemma ProcessFits(cfg: Config, w: World, x: string, m: Member, y: string)
    requires WorldOk(cfg, w) && Converging(w) && Possible(cfg, w, Process(x, m)) && y in Roster(w.nodes)
    ensures FitsAfter(cfg, w, Process(x, m), y)
  {
    UnannouncedAfter(cfg, w, Process(x, m));
    assert ViewFits(View(w.nodes[y]), w.nodes[y].inbox, Roster(w.nodes), Unannounced(w.joining));
    if y == x {
      RosterIsKeyed(cfg, w);
      StatusProcessed(View(w.nodes[y]), w.nodes[y].inbox, Roster(w.nodes), Unannounced(w.joining), m);
    }
  }

  lemma ActFits(cfg: Config, w: World, act: Act, y: string)
    requires WorldOk(cfg, w) && Converging(w) && Possible(cfg, w, act) && Orderly(w, act)
    requires y in w.nodes && y in RosterAfter(w, act)
    ensures FitsAfter(cfg, w, act, y)
  {
    match act
    case Found(m) => FoundFits(cfg, w, m, y);
    case Enter(x) => EnterFits(cfg, w, x, y);
    case Announce(x) => AnnounceFits(cfg, w, x, y);
    case Depart(x) => DepartFits(cfg, w, x, y);
    case Process(x, m) => ProcessFits(cfg, w, x, m, y);
    case _ =>
      UnannouncedAfter(cfg, w, act);
      assert ViewFits(View(w.nodes[y]), w.nodes[y].inbox, Roster(w.nodes), Unannounced(w.joining));
  }

  /** Members on the roster stay in the views of the members that have them. */
  lemma ViewsKeepRoster(cfg: Config, w: World, act: Act, x: string, y: string)
    requires WorldOk(cfg, w) && Converging(w) && Possible(cfg, w, act) && x in w.nodes && y in w.nodes
    requires x in Roster(w.nodes) && y in Roster(w.nodes) && x in View(w.nodes[y]) && act != Depart(y)
    ensures x in ViewAfter(cfg, w, act, y)
  {
    if act.Process? && act.x == y {
      RosterIsKeyed(cfg, w);
      StatusProcessed(View(w.nodes[y]), w.nodes[y].inbox, Roster(w.nodes), Unannounced(w.joining), act.m);
    }
  }

  lemma ActLinks(cfg: Config, w: World, act: Act, x: string, y: string)
    requires WorldOk(cfg, w) && Converging(w) && Possible(cfg, w, act) && Orderly(w, act)
    requires x in RosterAfter(w, act) && y in RosterAfter(w, act) && x != y && x in w.nodes && y in w.nodes
    ensures x in ViewAfter(cfg, w, act, y) || y in ViewAfter(cfg, w, act, x)
  {
    if act == Enter(x) {
      EntrantHoldsRoster(cfg, w, x);
    } else if act == Enter(y) {
      EntrantHoldsRoster(cfg, w, y);
    } else {
      OldMembers(w, act, x, y);
      if x in View(w.nodes[y]) {
        ViewsKeepRoster(cfg, w, act, x, y);
      } else {
        ViewsKeepRoster(cfg, w, act, y, x);
      }
    }
  }

  lemma OldMembers(w: World, act: Act, x: string, y: string)
    requires Orderly(w, act) && x in RosterAfter(w, act) && y in RosterAfter(w, act) && x != y && x in w.nodes &&
             y in w.nodes
    requires act != Enter(x) && act != Enter(y) && Converging(w)
    ensures x in Roster(w.nodes) && y in Roster(w.nodes) && act != Depart(x) && act != Depart(y)
    ensures x in View(w.nodes[y]) || y in View(w.nodes[x])
  {
  }

  lemma ActConverges(cfg: Config, w: World, act: Act)
    requires WorldOk(cfg, w) && Converging(w) && Possible(cfg, w, act) && Orderly(w, act)
    ensures Converging(After(cfg, w, act))
  {
    var w', roster' := After(cfg, w, act), RosterAfter(w, act);
    ActKeepsJoiners(cfg, w, act);
    RosterOfAct(cfg, w, act);
    forall y | y in roster' && y in w'.nodes
      ensures ViewFits(View(w'.nodes[y]), w'.nodes[y].inbox, roster', Unannounced(w'.joining))
    {
      ViewAndInbox(cfg, w, act, y);
      ActFits(cfg, w, act, y);
    }
    forall x, y | x in roster' && y in roster' && x != y && x in w'.nodes && y in w'.nodes
      ensures x in View(w'.nodes[y]) || y in View(w'.nodes[x])
    {
      ViewAndInbox(cfg, w, act, x);
      ViewAndInbox(cfg, w, act, y);
      ActLinks(cfg, w, act, x, y);
    }
  }

  lemma {:induction false} HistoryConverges(cfg: Config, worlds: seq<World>, acts: seq<Act>, i: nat)
    requires History(cfg, worlds, acts) && i < |worlds| && forall j :: 0 <= j < i ==> Orderly(worlds[j], acts[j])
    ensures Converging(worlds[i])
    decreases i
  {
    if i == 0 {
      assert Roster(worlds[0].nodes) == map[];
    } else {
      HistoryConverges(cfg, worlds, acts, i - 1);
      StepOf(cfg, worlds, acts, i - 1);
      ActConverges(cfg, worlds[i - 1], acts[i - 1]);
    }
  }

  /** In every orderly history, whatever joins overlap: once all joiners have announced themselves and all statuses have
      been processed, every member holds the true roster, and all cache the same checksum. */
  lemma OrderlyHistoriesConverge(cfg: Config, worlds: seq<World>, acts: seq<Act>, i: nat, y: string)
    requires History(cfg, worlds, acts) && i < |worlds| && forall j :: 0 <= j < i ==> Orderly(worlds[j], acts[j])
    requires Unannounced(worlds[i].joining) == {}
    requires forall z :: z in Roster(worlds[i].nodes) ==> worlds[i].nodes[z].inbox == {}
    requires y in Roster(worlds[i].nodes)
    ensures View(worlds[i].nodes[y]) == Roster(worlds[i].nodes) && Keyed(Roster(worlds[i].nodes))
    ensures worlds[i].nodes[y].agent.group.Some? &&
            worlds[i].nodes[y].agent.group.value.checksum == ViewChecksum(cfg.h, Roster(worlds[i].nodes))
  {
    HistoryConverges(cfg, worlds, acts, i);
    HistoryKeepsWorldOk(cfg, worlds, acts, i);
    RosterIsKeyed(cfg, worlds[i]);
    SettledMember(cfg, worlds[i], y);
  }

  lemma SettledMember(cfg: Config, w: World, y: string)
    requires WorldOk(cfg, w) && Converging(w) && Unannounced(w.joining) == {} && y in Roster(w.nodes) &&
             w.nodes[y].inbox == {}
    requires Keyed(Roster(w.nodes))
    ensures View(w.nodes[y]) == Roster(w.nodes) && w.nodes[y].agent.group.Some?
    ensures w.nodes[y].agent.group.value.checksum == ViewChecksum(cfg.h, Roster(w.nodes))
  {
    assert TopicOk(cfg, w.nodes[y]);
    assert y in View(w.nodes[y]);
    SettledFits(View(w.nodes[y]), Roster(w.nodes));
  }
}
