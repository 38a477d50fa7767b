/** The group protocol for one topic as a step machine over all agents: creating, joining and leaving the
    group, with the member statuses travelling between the agents. */
module Membership {
  import opened GoStrings
  import opened Base64
  import opened Models
  import opened Topics
  import opened Validator
  import opened GroupStore
  import opened DataFilters
  import opened LocalSteps
  import JoinCheck

  /** Subscriber keys come from two places: `serviceKey(x, l)` is the group-join key in `x`'s peer entry for `l`,
      and `sentKey(j, x)` is the key that `x` decodes from the subscription of the joiner `j`. */
  datatype Config = Config(h: Digest, topic: string, params: GroupParams, agents: set<string>,
                           serviceKey: (string, string) -> Key, sentKey: (string, string) -> Key)

  /** An agent's own state, and the statuses published to it that it has not processed yet. */
  datatype Node = Node(agent: Agent, inbox: set<Member>)

  type State = map<string, Node>

  datatype Event =
    | Create(m: Member)
    | Join(m: Member, acceptor: string, list: seq<Member>)
    | Leave(x: string)
    | Deliver(x: string, m: Member)

  ghost predicate Init(cfg: Config, s: State) {
    s.Keys == cfg.agents && forall x :: x in s ==> s[x] == Node(Agent(None, map[], multiset{}), {})
  }

  function View(n: Node): map<string, Member> {
    Members(n.agent)
  }

  /** The true roster: the own record of every agent that holds the group. */
  ghost function Roster(s: State): map<string, Member> {
    map x | x in s && x in View(s[x]) :: View(s[x])[x]
  }

  /** No join is in progress: all active statuses have been processed. */
  ghost predicate NoJoinInProgress(s: State) {
    forall x :: x in s ==> forall m :: m in s[x].inbox ==> !m.active
  }

  /** No status of `x` is on its way to anybody. */
  ghost predicate NoStatusOf(s: State, x: string) {
    forall y :: y in s ==> forall m :: m in s[y].inbox ==> m.name != x
  }

  /** The checksum every agent that holds the group answers a subscription with. */
  ghost function Answers(s: State): map<string, string> {
    map x | x in s && s[x].agent.group.Some? :: s[x].agent.group.value.checksum
  }

  /** Joins are serialised: one starts only when the statuses of the previous one have been processed, with an
      acceptor that has processed every status, for an agent that has no status on its way, neither to it nor
      from it.  Leaves may happen whenever no join is in progress, and statuses are processed in any order. */
  ghost predicate Enabled(cfg: Config, s: State, e: Event) {
    match e
    case Create(m) =>
      m.name in s && m.active && s[m.name].inbox == {} && NoStatusOf(s, m.name) &&
      forall x :: x in s ==> s[x].agent.group.None?
    case Join(m, acceptor, list) =>
      m.name in s && m.active && s[m.name].agent.group.None? && s[m.name].inbox == {} && NoStatusOf(s, m.name) &&
      NoJoinInProgress(s) &&
      acceptor in s && HasTopic(s[acceptor].agent) && s[acceptor].inbox == {} && Lists(list, View(s[acceptor])) &&
      (s[acceptor].agent.group.value.params.value.joinConsistent ==>
       JoinCheck.Consistent(cfg.h, acceptor, list, Answers(s)))
    case Leave(x) =>
      x in s && HasTopic(s[x].agent) && x in View(s[x]) && NoJoinInProgress(s)
    case Deliver(x, m) =>
      x in s && m in s[x].inbox && (s[x].agent.group.Some? ==> HasTopic(s[x].agent))
  }

  ghost function Tell(n: Node, m: Member): Node {
    n.(inbox := n.inbox + {m})
  }

  ghost function CreateNode(cfg: Config, n: Node, m: Member): Node
    requires Keyed(View(n))
  {
    n.(agent := Created(cfg.h, n.agent, cfg.params, m))
  }

  /** The keys a joiner takes from its peer entries. */
  function JoinerKeys(cfg: Config, x: string): string -> Key {
    l => cfg.serviceKey(x, l)
  }

  /** The joiner ends up with the acceptor's list and itself. */
  ghost function JoinerNode(cfg: Config, n: Node, gp: GroupParams, m: Member, list: seq<Member>): Node
    requires Keyed(View(n))
  {
    n.(agent := Joined(cfg.h, cfg.topic, n.agent, gp, list, m, JoinerKeys(cfg, m.name)))
  }

  /** A listed member answers the subscription and is sent the active status. */
  ghost function MemberNode(cfg: Config, n: Node, x: string, m: Member): Node {
    var answered := if HasTopic(n.agent)
        then n.(agent := Subscribed(cfg.topic, n.agent, x, m, cfg.sentKey(m.name, x))) else n;
    Tell(answered, m)
  }

  /** What a join does to the agent `x`; `view` is the acceptor's. */
  ghost function JoinedNode(cfg: Config, n: Node, x: string, gp: GroupParams, view: map<string, Member>, m: Member,
                            list: seq<Member>): Node
    requires x == m.name ==> Keyed(View(n))
  {
    if x == m.name then JoinerNode(cfg, n, gp, m, list)
    else if x in view then MemberNode(cfg, n, x, m)
    else n
  }

  ghost function LeaverNode(cfg: Config, n: Node, x: string): Node
    requires HasTopic(n.agent)
  {
    n.(agent := Left(cfg.topic, n.agent, x))
  }

  /** What the leaving of `x`, whose view is `view`, does to the agent `y`. */
  ghost function LeftNode(cfg: Config, n: Node, y: string, view: map<string, Member>, x: string): Node
    requires y == x ==> HasTopic(n.agent)
    requires x in view
  {
    if y == x then LeaverNode(cfg, n, x)
    else if y in view then Tell(n, view[x].(active := false))
    else n
  }

  /** A status that reaches an agent without the group is dropped. */
  ghost function DeliveredNode(cfg: Config, n: Node, x: string, m: Member): Node
    requires n.agent.group.Some? ==> HasTopic(n.agent)
  {
    Node(if n.agent.group.Some? then StatusApplied(cfg.h, cfg.topic, n.agent, x, m) else n.agent, n.inbox - {m})
  }

  ghost function Next(cfg: Config, s: State, e: Event): State
    requires Enabled(cfg, s, e)
  {
    match e
    case Create(m) => s[m.name := CreateNode(cfg, s[m.name], m)]
    case Join(m, acceptor, list) =>
      var g := s[acceptor].agent.group.value;
      map x | x in s :: JoinedNode(cfg, s[x], x, g.params.value, g.members, m, list)
    case Leave(x) =>
      var view := View(s[x]);
      map y | y in s :: LeftNode(cfg, s[y], y, view, x)
    case Deliver(x, m) => s[x := DeliveredNode(cfg, s[x], x, m)]
  }

  /** The states a run goes through. */
  ghost predicate Run(cfg: Config, states: seq<State>, events: seq<Event>) {
    |states| == |events| + 1 && Init(cfg, states[0]) &&
    forall i :: 0 <= i < |events| ==>
      Enabled(cfg, states[i], events[i]) && states[i + 1] == Next(cfg, states[i], events[i])
  }

  // ------------------------------------------------------------------------------------- invariant

  /** Every entry of a view is on the roster, unless its leaving is on its way; and every roster entry is in
      the view, unless its joining is on its way. */
  ghost predicate ViewOk(v: map<string, Member>, inbox: set<Member>, roster: map<string, Member>) {
    (forall l :: l in v ==> v[l].active && v[l].name == l) &&
    (forall l :: l in v ==>
     if v[l].(active := false) in inbox then l !in roster else l in roster && roster[l] == v[l]) &&
    (forall l :: l in roster ==> l in v || roster[l] in inbox)
  }

  /** The statuses on their way to an agent that holds the group. */
  ghost predicate InboxOk(v: map<string, Member>, inbox: set<Member>, roster: map<string, Member>) {
    forall m :: m in inbox ==>
      if m.active then m.name in roster && roster[m.name] == m && m.name !in v
      else m.name !in roster && m.name in v && m == v[m.name].(active := false)
  }

  /** The key under which `x` indexes `l` is the one from its peer entry, if `x` was the joiner, or the one `l` sent. */
  ghost predicate IndexKey(cfg: Config, x: string, l: string, key: Key) {
    key == cfg.serviceKey(x, l) || key == cfg.sentKey(l, x)
  }

  /** The index holds only known members other than the agent itself, each with its key; a publisher's holds all of
      them. */
  ghost predicate IndexOk(cfg: Config, x: string, publisher: bool, subs: map<string, Key>, known: map<string, Member>) {
    (forall l :: l in subs ==> l in known && l != x && IndexKey(cfg, x, l, subs[l])) &&
    (publisher ==> forall l :: l in known && l != x ==> l in subs)
  }

  /** The group-store entry. */
  ghost predicate GroupOk(cfg: Config, a: Agent) {
    HasTopic(a) && a.group.value.params == Some(cfg.params) && Members(a).Keys <= cfg.agents &&
    a.group.value.checksum == ViewChecksum(cfg.h, Members(a))
  }

  ghost predicate SelfOk(v: map<string, Member>, inbox: set<Member>, roster: map<string, Member>, x: string) {
    x in roster && x in v && v[x] == roster[x] && forall m :: m in inbox ==> m.name != x
  }

  ghost predicate FiltersOk(cfg: Config, x: string, filters: multiset<string>, known: map<string, Member>) {
    Keyed(known) && filters == PeerFilters(cfg.params.mode, cfg.topic, known, x)
  }

  ghost predicate MemberOk(cfg: Config, n: Node, x: string, roster: map<string, Member>) {
    GroupOk(cfg, n.agent) &&
    ViewOk(View(n), n.inbox, roster) && InboxOk(View(n), n.inbox, roster) && SelfOk(View(n), n.inbox, roster, x) &&
    IndexOk(cfg, x, roster[x].publisher, n.agent.subs, View(n) + roster) &&
    FiltersOk(cfg, x, n.agent.filters, View(n) + roster)
  }

  ghost predicate OutsiderOk(n: Node, x: string, roster: map<string, Member>) {
    n.agent == Agent(None, map[], multiset{}) && x !in roster &&
    forall m :: m in n.inbox ==> !m.active && m.name !in roster
  }

  ghost predicate RosterOk(roster: map<string, Member>) {
    forall l :: l in roster ==> roster[l].name == l && roster[l].active
  }

  ghost predicate NodeOk(cfg: Config, n: Node, x: string, roster: map<string, Member>) {
    RosterOk(roster) && roster.Keys <= cfg.agents &&
    if n.agent.group.Some? then MemberOk(cfg, n, x, roster) else OutsiderOk(n, x, roster)
  }

  ghost predicate Inv(cfg: Config, s: State) {
    s.Keys == cfg.agents && forall x :: x in s ==> NodeOk(cfg, s[x], x, Roster(s))
  }

  lemma InvInit(cfg: Config, s: State)
    requires Init(cfg, s)
    ensures Inv(cfg, s)
  {
    assert Roster(s) == map[];
  }

  // ------------------------------------------------------------------- one agent in each kind of step

  lemma CreateMember(cfg: Config, n: Node, m: Member)
    requires n == Node(Agent(None, map[], multiset{}), {}) && m.active && m.name in cfg.agents
    ensures NodeOk(cfg, CreateNode(cfg, n, m), m.name, map[m.name := m])
  {
    var v := map[m.name := m];
    assert [m][..0] == [];
    assert Merged(map[], [m]) == v;
    assert v + v == v;
    NoPeersNoFilters(cfg.params.mode, cfg.topic, v, m.name);
  }

  /** Another agent left: it stays in the view until its status is processed. */
  lemma LeaveViews(v: map<string, Member>, inbox: set<Member>, roster: map<string, Member>, x: string)
    requires RosterOk(roster) && ViewOk(v, inbox, roster) && InboxOk(v, inbox, roster)
    requires x in roster && (forall m :: m in inbox ==> !m.active)
    ensures x in v && v[x] == roster[x]
    ensures ViewOk(v, inbox + {roster[x].(active := false)}, roster - {x})
    ensures InboxOk(v, inbox + {roster[x].(active := false)}, roster - {x})
    ensures v + roster == v + (roster - {x})
  {
    assert roster[x] !in inbox;
    var inbox', roster' := inbox + {roster[x].(active := false)}, roster - {x};
    forall l | l in v
      ensures if v[l].(active := false) in inbox' then l !in roster' else l in roster' && roster'[l] == v[l]
    {
      if l != x {
        assert v[l].(active := false) in inbox' <==> v[l].(active := false) in inbox;
      }
    }
  }

  lemma LeaveMember(cfg: Config, n: Node, y: string, roster: map<string, Member>, x: string)
    requires NodeOk(cfg, n, y, roster) && n.agent.group.Some?
    requires x in roster && x != y && (forall m :: m in n.inbox ==> !m.active)
    ensures NodeOk(cfg, Tell(n, roster[x].(active := false)), y, roster - {x})
  {
    LeaveViews(View(n), n.inbox, roster, x);
  }

  lemma LeaveLeaver(cfg: Config, n: Node, x: string, roster: map<string, Member>)
    requires NodeOk(cfg, n, x, roster) && n.agent.group.Some? && (forall m :: m in n.inbox ==> !m.active)
    ensures NodeOk(cfg, LeaverNode(cfg, n, x), x, roster - {x})
  {
    var v := View(n);
    forall l | l in roster ensures l in v && v[l] == roster[l] {
      assert roster[l] !in n.inbox;
    }
    assert v + roster == v;
    var filters := LeaverNode(cfg, n, x).agent.filters;
    assert filters == multiset{};
  }

  lemma ActiveViews(v: map<string, Member>, inbox: set<Member>, roster: map<string, Member>, m: Member)
    requires RosterOk(roster) && ViewOk(v, inbox, roster) && InboxOk(v, inbox, roster) && m in inbox && m.active
    ensures ViewOk(v[m.name := m], inbox - {m}, roster) && InboxOk(v[m.name := m], inbox - {m}, roster)
    ensures v[m.name := m] + roster == v + roster
  {
    forall i | i in inbox - {m} ensures i.name != m.name { }
  }

  lemma InactiveViews(v: map<string, Member>, inbox: set<Member>, roster: map<string, Member>, m: Member)
    requires RosterOk(roster) && ViewOk(v, inbox, roster) && InboxOk(v, inbox, roster) && m in inbox && !m.active
    ensures ViewOk(v - {m.name}, inbox - {m}, roster) && InboxOk(v - {m.name}, inbox - {m}, roster)
    ensures (v - {m.name}) + roster == (v + roster) - {m.name}
  {
    forall i | i in inbox - {m} ensures i.name != m.name { }
  }

  lemma DeliveredGroup(cfg: Config, a: Agent, x: string, m: Member)
    requires GroupOk(cfg, a) && m.name in cfg.agents && x in StatusView(Members(a), m)
    ensures var a' := StatusApplied(cfg.h, cfg.topic, a, x, m);
            Members(a') == StatusView(Members(a), m) && GroupOk(cfg, a')
  {
    var v' := StatusView(Members(a), m);
    assert v'.Keys <= Members(a).Keys + {m.name};
    assert v'.Keys != {};
    assert Keyed(v');
    assert StatusApplied(cfg.h, cfg.topic, a, x, m).group.value == WithMembers(cfg.h, a.group.value, v');
  }

  lemma DeliverActive(cfg: Config, n: Node, x: string, roster: map<string, Member>, m: Member)
    requires NodeOk(cfg, n, x, roster) && n.agent.group.Some? && m in n.inbox && m.active
    ensures NodeOk(cfg, DeliveredNode(cfg, n, x, m), x, roster)
  {
    var v := View(n);
    ActiveViews(v, n.inbox, roster, m);
    DeliveredGroup(cfg, n.agent, x, m);
  }

  lemma DeliverInactive(cfg: Config, n: Node, x: string, roster: map<string, Member>, m: Member)
    requires NodeOk(cfg, n, x, roster) && n.agent.group.Some? && m in n.inbox && !m.active
    ensures NodeOk(cfg, DeliveredNode(cfg, n, x, m), x, roster)
  {
    var v := View(n);
    InactiveViews(v, n.inbox, roster, m);
    DeliveredGroup(cfg, n.agent, x, m);
    DeliveredFilters(cfg, n.agent, x, v + roster, m);
    var known := (v - {m.name}) + roster;
    assert IndexOk(cfg, x, roster[x].publisher, n.agent.subs - {m.name}, known);
  }

  lemma DeliveredFilters(cfg: Config, a: Agent, x: string, known: map<string, Member>, m: Member)
    requires GroupOk(cfg, a) && FiltersOk(cfg, x, a.filters, known) && !m.active && m.name != x
    requires m.name in known && m == known[m.name].(active := false)
    ensures FiltersOk(cfg, x, StatusApplied(cfg.h, cfg.topic, a, x, m).filters, known - {m.name})
  {
    PeerFiltersRemove(cfg.params.mode, cfg.topic, known, m.name, x);
    assert ConnectFilter(cfg.params.mode, cfg.topic, m, x) == FilterFor(cfg.params.mode, cfg.topic, known[m.name], x);
  }

  /** A member that has answered the joiner and awaits its status. */
  lemma JoinViews(v: map<string, Member>, inbox: set<Member>, roster: map<string, Member>, m: Member)
    requires RosterOk(roster) && ViewOk(v, inbox, roster) && InboxOk(v, inbox, roster)
    requires m.active && m.name !in roster && (forall i :: i in inbox ==> i.name != m.name)
    ensures m.name !in v
    ensures ViewOk(v, inbox + {m}, roster[m.name := m]) && InboxOk(v, inbox + {m}, roster[m.name := m])
    ensures v + roster[m.name := m] == (v + roster)[m.name := m]
  {
    forall l | l in v ensures l != m.name {
      assert v[l].(active := false) in inbox || l in roster;
    }
    forall l | l in v ensures v[l].(active := false) in inbox + {m} <==> v[l].(active := false) in inbox { }
  }

  lemma AnsweredFilters(cfg: Config, a: Agent, x: string, known: map<string, Member>, m: Member)
    requires GroupOk(cfg, a) && FiltersOk(cfg, x, a.filters, known) && m.name != x && m.name !in known
    ensures FiltersOk(cfg, x, Subscribed(cfg.topic, a, x, m, cfg.sentKey(m.name, x)).filters, known[m.name := m])
  {
    PeerFiltersAdd(cfg.params.mode, cfg.topic, known, m, x);
    assert ConnectFilter(cfg.params.mode, cfg.topic, m, x) == FilterFor(cfg.params.mode, cfg.topic, m, x);
  }

  lemma AnsweredIndex(cfg: Config, x: string, publisher: bool, subs: map<string, Key>, known: map<string, Member>,
                      m: Member)
    requires IndexOk(cfg, x, publisher, subs, known) && m.name != x
    ensures IndexOk(cfg, x, publisher, subs[m.name := cfg.sentKey(m.name, x)], known[m.name := m])
  {
  }

  lemma JoinMember(cfg: Config, n: Node, x: string, roster: map<string, Member>, m: Member)
    requires RosterOk(roster) && MemberOk(cfg, n, x, roster)
    requires m.active && m.name !in roster && (forall i :: i in n.inbox ==> i.name != m.name)
    ensures MemberOk(cfg, MemberNode(cfg, n, x, m), x, roster[m.name := m])
  {
    var v, roster' := View(n), roster[m.name := m];
    JoinViews(v, n.inbox, roster, m);
    JoinedParts(cfg, n, x, m);
    AnsweredFilters(cfg, n.agent, x, v + roster, m);
    AnsweredIndex(cfg, x, roster[x].publisher, n.agent.subs, v + roster, m);
    JoinedSelf(v, n.inbox, roster, x, m);
    MemberOfParts(cfg, MemberNode(cfg, n, x, m), x, roster', v + roster');
  }

  /** Answering a joiner and being told of it changes neither the view nor the group entry. */
  lemma JoinedParts(cfg: Config, n: Node, x: string, m: Member)
    requires GroupOk(cfg, n.agent)
    ensures var n' := MemberNode(cfg, n, x, m);
            View(n') == View(n) && n'.inbox == n.inbox + {m} && GroupOk(cfg, n'.agent) &&
            n'.agent == Subscribed(cfg.topic, n.agent, x, m, cfg.sentKey(m.name, x)) &&
            n'.agent.subs == n.agent.subs[m.name := cfg.sentKey(m.name, x)]
  {
  }

  lemma JoinedSelf(v: map<string, Member>, inbox: set<Member>, roster: map<string, Member>, x: string, m: Member)
    requires SelfOk(v, inbox, roster, x) && m.name != x
    ensures SelfOk(v, inbox + {m}, roster[m.name := m], x)
  {
  }

  lemma MemberOfParts(cfg: Config, n: Node, x: string, roster: map<string, Member>, known: map<string, Member>)
    requires GroupOk(cfg, n.agent) && SelfOk(View(n), n.inbox, roster, x) && known == View(n) + roster
    requires ViewOk(View(n), n.inbox, roster) && InboxOk(View(n), n.inbox, roster)
    requires IndexOk(cfg, x, roster[x].publisher, n.agent.subs, known) && FiltersOk(cfg, x, n.agent.filters, known)
    ensures MemberOk(cfg, n, x, roster)
  {
  }

  lemma {:induction false} MergedList(list: seq<Member>, l: string)
    requires UniqueLabels(list)
    ensures l in Merged(map[], list) <==> Named(list, l)
    ensures forall m :: m in list ==> m.name in Merged(map[], list) && Merged(map[], list)[m.name] == m
  {
    if list != [] {
      var init, last := list[..|list| - 1], list[|list| - 1];
      MergedList(init, l);
      assert list == init + [last];
    }
  }

  /** A listing merges to what it lists. */
  lemma MergedLists(list: seq<Member>, members: map<string, Member>)
    requires Keyed(members) && Lists(list, members)
    ensures Merged(map[], list) == members
  {
    var merged := Merged(map[], list);
    forall l ensures l in merged <==> l in members
      ensures l in members ==> merged[l] == members[l]
    {
      MergedList(list, l);
      if l in members { assert members[l] in list; }
    }
  }

  lemma MergedListing(list: seq<Member>, members: map<string, Member>, m: Member)
    requires Keyed(members) && Lists(list, members) && m.name !in members
    ensures Merged(map[], list + [m]) == members[m.name := m]
  {
    MergedLists(list, members);
    assert (list + [m])[..|list|] == list;
  }

  lemma JoinerFilters(cfg: Config, a: Agent, roster: map<string, Member>, m: Member, list: seq<Member>)
    requires a.filters == multiset{} && RosterOk(roster) && Lists(list, roster) && m.name !in roster
    ensures FiltersOk(cfg, m.name,
                      Joined(cfg.h, cfg.topic, Agent(None, a.subs, a.filters), cfg.params, list, m,
                             JoinerKeys(cfg, m.name)).filters,
                      roster[m.name := m])
  {
    var key := JoinerKeys(cfg, m.name);
    AllActive(list);
    ConnectedFilters(cfg.topic, Agent(None, a.subs, a.filters), m.name, cfg.params.mode, m.publisher, list, key);
    FiltersOfListing(cfg.params.mode, cfg.topic, list, roster, m.name);
    PeerFiltersAdd(cfg.params.mode, cfg.topic, roster, m, m.name);
  }

  ghost function JoinerSubs(cfg: Config, m: Member, list: seq<Member>): map<string, Key> {
    Joined(cfg.h, cfg.topic, Agent(None, map[], multiset{}), cfg.params, list, m,
           JoinerKeys(cfg, m.name)).subs
  }

  lemma JoinerIndexes(cfg: Config, roster: map<string, Member>, m: Member, list: seq<Member>, l: string)
    requires RosterOk(roster) && Lists(list, roster)
    ensures l in JoinerSubs(cfg, m, list) <==> m.publisher && l in roster
    ensures l in JoinerSubs(cfg, m, list) ==> JoinerSubs(cfg, m, list)[l] == cfg.serviceKey(m.name, l)
  {
    var key := JoinerKeys(cfg, m.name);
    AllActive(list);
    ConnectedSubs(cfg.topic, Agent(None, map[], multiset{}), m.name, cfg.params.mode, m.publisher, list, key, l);
    if l in roster { assert roster[l] in list; }
  }

  lemma JoinerIndex(cfg: Config, roster: map<string, Member>, m: Member, list: seq<Member>)
    requires RosterOk(roster) && Lists(list, roster) && m.name !in roster
    ensures IndexOk(cfg, m.name, m.publisher, JoinerSubs(cfg, m, list), roster[m.name := m])
  {
    forall l ensures l in JoinerSubs(cfg, m, list) <==> m.publisher && l in roster
      ensures l in JoinerSubs(cfg, m, list) ==> JoinerSubs(cfg, m, list)[l] == cfg.serviceKey(m.name, l)
    {
      JoinerIndexes(cfg, roster, m, list, l);
    }
  }

  lemma JoinerGroup(cfg: Config, roster: map<string, Member>, m: Member, list: seq<Member>)
    requires RosterOk(roster) && roster.Keys <= cfg.agents && Lists(list, roster)
    requires m.name !in roster && m.name in cfg.agents
    ensures var n := JoinerNode(cfg, Node(Agent(None, map[], multiset{}), {}), cfg.params, m, list);
            n.inbox == {} && View(n) == roster[m.name := m] && GroupOk(cfg, n.agent)
  {
    MergedListing(list, roster, m);
    assert m.name in roster[m.name := m];
    var g := JoinerNode(cfg, Node(Agent(None, map[], multiset{}), {}), cfg.params, m, list).agent.group.value;
    assert g == WithMembers(cfg.h, EMPTY.(params := Some(cfg.params)), roster[m.name := m]);
  }

  lemma RosterViewOk(roster: map<string, Member>)
    requires RosterOk(roster)
    ensures ViewOk(roster, {}, roster) && InboxOk(roster, {}, roster) && roster + roster == roster
  {
  }

  /** The acceptor has processed every status, so its view is the roster. */
  lemma JoinJoiner(cfg: Config, roster: map<string, Member>, m: Member, list: seq<Member>)
    requires RosterOk(roster) && roster.Keys <= cfg.agents && Lists(list, roster)
    requires m.name !in roster && m.active && m.name in cfg.agents
    ensures NodeOk(cfg, JoinerNode(cfg, Node(Agent(None, map[], multiset{}), {}), cfg.params, m, list), m.name,
                   roster[m.name := m])
  {
    var a := Agent(None, map[], multiset{});
    var n := JoinerNode(cfg, Node(a, {}), cfg.params, m, list);
    var roster' := roster[m.name := m];
    JoinerGroup(cfg, roster, m, list);
    JoinerFilters(cfg, a, roster, m, list);
    JoinerIndex(cfg, roster, m, list);
    RosterViewOk(roster');
    assert SelfOk(View(n), n.inbox, roster', m.name);
    assert n.agent.group.Some?;
  }

  // ------------------------------------------------------------------------------------- every step

  lemma OnRoster(cfg: Config, s: State, x: string)
    requires Inv(cfg, s) && x in s
    ensures x in Roster(s) <==> s[x].agent.group.Some?
    ensures x in Roster(s) ==> x in View(s[x]) && Roster(s)[x] == View(s[x])[x]
  {
    assert NodeOk(cfg, s[x], x, Roster(s));
  }

  /** If every node is in order for the same roster, that is the roster. */
  lemma RosterOfNodes(cfg: Config, s: State, roster: map<string, Member>)
    requires s.Keys == cfg.agents && roster.Keys <= cfg.agents
    requires forall x :: x in s ==> NodeOk(cfg, s[x], x, roster)
    ensures Roster(s) == roster && Inv(cfg, s)
  {
    forall x | x in s ensures x in View(s[x]) <==> x in roster
      ensures x in roster ==> View(s[x])[x] == roster[x]
    {
      OwnRecord(cfg, s[x], x, roster);
    }
    RosterOfRecords(s, roster);
  }

  lemma RosterOfRecords(s: State, roster: map<string, Member>)
    requires roster.Keys <= s.Keys
    requires forall x :: x in s ==> (x in View(s[x]) <==> x in roster)
    requires forall x :: x in roster ==> x in View(s[x]) && View(s[x])[x] == roster[x]
    ensures Roster(s) == roster
  {
    assert Roster(s).Keys == roster.Keys;
  }

  lemma OwnRecord(cfg: Config, n: Node, x: string, roster: map<string, Member>)
    requires NodeOk(cfg, n, x, roster)
    ensures x in View(n) <==> x in roster
    ensures x in roster ==> View(n)[x] == roster[x]
  {
  }

  lemma CreateKeepsInv(cfg: Config, s: State, m: Member)
    requires Inv(cfg, s) && Enabled(cfg, s, Create(m))
    ensures Inv(cfg, Next(cfg, s, Create(m)))
  {
    var s' := Next(cfg, s, Create(m));
    forall y | y in s' ensures NodeOk(cfg, s'[y], y, map[m.name := m]) {
      assert NodeOk(cfg, s[y], y, Roster(s));
      if y == m.name { CreateMember(cfg, s[y], m); }
    }
    RosterOfNodes(cfg, s', map[m.name := m]);
  }

  lemma SettledNode(cfg: Config, n: Node, x: string, roster: map<string, Member>)
    requires NodeOk(cfg, n, x, roster) && n.agent.group.Some? && n.inbox == {}
    ensures View(n) == roster && x in roster && n.agent.group.value.checksum == ViewChecksum(cfg.h, roster)
  {
  }

  /** A view whose owner has processed every status is the roster. */
  lemma SettledView(cfg: Config, s: State, x: string)
    requires Inv(cfg, s) && x in s && s[x].agent.group.Some? && s[x].inbox == {}
    ensures View(s[x]) == Roster(s)
  {
    assert NodeOk(cfg, s[x], x, Roster(s));
    SettledNode(cfg, s[x], x, Roster(s));
  }

  lemma JoinNode(cfg: Config, n: Node, y: string, roster: map<string, Member>, m: Member, list: seq<Member>)
    requires NodeOk(cfg, n, y, roster) && Lists(list, roster)
    requires m.active && m.name in cfg.agents && m.name !in roster && (forall i :: i in n.inbox ==> i.name != m.name)
    requires y == m.name ==> n.inbox == {}
    ensures Keyed(View(n)) && NodeOk(cfg, JoinedNode(cfg, n, y, cfg.params, roster, m, list), y, roster[m.name := m])
  {
    if y == m.name {
      assert n == Node(Agent(None, map[], multiset{}), {});
      JoinJoiner(cfg, roster, m, list);
    } else if y in roster {
      JoinMember(cfg, n, y, roster, m);
    }
  }

  lemma JoinFacts(cfg: Config, s: State, m: Member, acceptor: string, list: seq<Member>)
    requires Inv(cfg, s) && Enabled(cfg, s, Join(m, acceptor, list))
    ensures s[acceptor].agent.group.value.members == Roster(s) && Lists(list, Roster(s))
    ensures s[acceptor].agent.group.value.params.value == cfg.params
    ensures m.name in cfg.agents && m.name !in Roster(s)
    ensures forall y :: y in s ==> forall i :: i in s[y].inbox ==> i.name != m.name
  {
    SettledView(cfg, s, acceptor);
    OnRoster(cfg, s, m.name);
    assert NodeOk(cfg, s[acceptor], acceptor, Roster(s));
  }

  lemma JoinNodes(cfg: Config, s: State, m: Member, acceptor: string, list: seq<Member>)
    requires Inv(cfg, s) && Enabled(cfg, s, Join(m, acceptor, list))
    ensures forall y :: y in s ==> Keyed(View(s[y]))
    ensures forall y :: y in s ==>
              NodeOk(cfg, JoinedNode(cfg, s[y], y, cfg.params, Roster(s), m, list), y, Roster(s)[m.name := m])
  {
    JoinFacts(cfg, s, m, acceptor, list);
    forall y | y in s
      ensures Keyed(View(s[y])) &&
              NodeOk(cfg, JoinedNode(cfg, s[y], y, cfg.params, Roster(s), m, list), y, Roster(s)[m.name := m])
    {
      JoinNode(cfg, s[y], y, Roster(s), m, list);
    }
  }

  lemma NextOfJoin(cfg: Config, s: State, m: Member, acceptor: string, list: seq<Member>)
    requires s.Keys == cfg.agents && Enabled(cfg, s, Join(m, acceptor, list)) &&
             (forall y :: y in s ==> Keyed(View(s[y])))
    requires s[acceptor].agent.group.value.members == Roster(s) &&
             s[acceptor].agent.group.value.params.value == cfg.params
    ensures var s' := Next(cfg, s, Join(m, acceptor, list));
            s'.Keys == cfg.agents && forall y :: y in s' ==>
              s'[y] == JoinedNode(cfg, s[y], y, cfg.params, Roster(s), m, list)
  {
  }

  lemma JoinKeepsInv(cfg: Config, s: State, m: Member, acceptor: string, list: seq<Member>)
    requires Inv(cfg, s) && Enabled(cfg, s, Join(m, acceptor, list))
    ensures Inv(cfg, Next(cfg, s, Join(m, acceptor, list)))
    ensures Roster(Next(cfg, s, Join(m, acceptor, list))) == Roster(s)[m.name := m]
  {
    JoinFacts(cfg, s, m, acceptor, list);
    JoinNodes(cfg, s, m, acceptor, list);
    NextOfJoin(cfg, s, m, acceptor, list);
    RosterOfNodes(cfg, Next(cfg, s, Join(m, acceptor, list)), Roster(s)[m.name := m]);
  }

  lemma LeaveNode(cfg: Config, n: Node, y: string, roster: map<string, Member>, view: map<string, Member>, x: string)
    requires NodeOk(cfg, n, y, roster) && x in roster && (forall m :: m in n.inbox ==> !m.active)
    requires y == x ==> HasTopic(n.agent)
    requires x in view && view[x] == roster[x] && roster.Keys <= view.Keys
    ensures NodeOk(cfg, LeftNode(cfg, n, y, view, x), y, roster - {x})
  {
    if y == x {
      LeaveLeaver(cfg, n, x, roster);
    } else if y in roster {
      LeaveMember(cfg, n, y, roster, x);
    }
  }

  lemma RosterIsViewed(cfg: Config, n: Node, x: string, roster: map<string, Member>)
    requires NodeOk(cfg, n, x, roster) && n.agent.group.Some? && (forall m :: m in n.inbox ==> !m.active)
    ensures roster.Keys <= View(n).Keys
  {
    forall l | l in roster ensures l in View(n) {
      assert roster[l] !in n.inbox;
    }
  }

  lemma LeaveNodes(cfg: Config, s: State, x: string)
    requires Inv(cfg, s) && Enabled(cfg, s, Leave(x))
    ensures forall y :: y in s ==> NodeOk(cfg, LeftNode(cfg, s[y], y, View(s[x]), x), y, Roster(s) - {x})
  {
    OnRoster(cfg, s, x);
    RosterIsViewed(cfg, s[x], x, Roster(s));
    forall y | y in s ensures NodeOk(cfg, LeftNode(cfg, s[y], y, View(s[x]), x), y, Roster(s) - {x}) {
      LeaveNode(cfg, s[y], y, Roster(s), View(s[x]), x);
    }
  }

  lemma LeaveKeepsInv(cfg: Config, s: State, x: string)
    requires Inv(cfg, s) && Enabled(cfg, s, Leave(x))
    ensures Inv(cfg, Next(cfg, s, Leave(x)))
    ensures Roster(Next(cfg, s, Leave(x))) == Roster(s) - {x}
  {
    LeaveNodes(cfg, s, x);
    RosterOfNodes(cfg, Next(cfg, s, Leave(x)), Roster(s) - {x});
  }

  lemma DeliverNode(cfg: Config, n: Node, x: string, roster: map<string, Member>, m: Member)
    requires NodeOk(cfg, n, x, roster) && m in n.inbox && (n.agent.group.Some? ==> HasTopic(n.agent))
    ensures NodeOk(cfg, DeliveredNode(cfg, n, x, m), x, roster)
  {
    if n.agent.group.Some? {
      if m.active { DeliverActive(cfg, n, x, roster, m); } else { DeliverInactive(cfg, n, x, roster, m); }
    }
  }

  lemma DeliverKeepsInv(cfg: Config, s: State, x: string, m: Member)
    requires Inv(cfg, s) && Enabled(cfg, s, Deliver(x, m))
    ensures Inv(cfg, Next(cfg, s, Deliver(x, m)))
    ensures Roster(Next(cfg, s, Deliver(x, m))) == Roster(s)
  {
    var s' := Next(cfg, s, Deliver(x, m));
    DeliverNode(cfg, s[x], x, Roster(s), m);
    RosterOfNodes(cfg, s', Roster(s));
  }

  lemma StepKeepsInv(cfg: Config, s: State, e: Event)
    requires Inv(cfg, s) && Enabled(cfg, s, e)
    ensures Inv(cfg, Next(cfg, s, e))
  {
    match e
    case Create(m) => CreateKeepsInv(cfg, s, m);
    case Join(m, acceptor, list) => JoinKeepsInv(cfg, s, m, acceptor, list);
    case Leave(x) => LeaveKeepsInv(cfg, s, x);
    case Deliver(x, m) => DeliverKeepsInv(cfg, s, x, m);
  }

  /** Every state of every run satisfies the invariant. */
  lemma {:induction false} RunKeepsInv(cfg: Config, states: seq<State>, events: seq<Event>, i: nat)
    requires Run(cfg, states, events) && i < |states|
    ensures Inv(cfg, states[i])
    decreases i
  {
    if i == 0 {
      InvInit(cfg, states[0]);
    } else {
      RunKeepsInv(cfg, states, events, i - 1);
      assert Enabled(cfg, states[i - 1], events[i - 1]) && states[i - 1 + 1] == Next(cfg, states[i - 1], events[i - 1]);
      StepKeepsInv(cfg, states[i - 1], events[i - 1]);
    }
  }

  // --------------------------------------------------------------------------------------- theorems

  /** The statuses applied to a view one after the other. */
  function ApplyStatuses(v: map<string, Member>, statuses: seq<Member>): map<string, Member>
    decreases |statuses|
  {
    if statuses == [] then v else ApplyStatuses(StatusView(v, statuses[0]), statuses[1..])
  }

  lemma {:induction false} AppliedIsRoster(v: map<string, Member>, inbox: set<Member>, roster: map<string, Member>,
                                           statuses: seq<Member>)
    requires RosterOk(roster) && ViewOk(v, inbox, roster) && InboxOk(v, inbox, roster)
    requires Enumerates(statuses, inbox)
    ensures ApplyStatuses(v, statuses) == roster
    decreases |statuses|
  {
    if statuses == [] {
      assert inbox == {};
    } else {
      var m := statuses[0];
      assert m in inbox;
      if m.active { ActiveViews(v, inbox, roster, m); } else { InactiveViews(v, inbox, roster, m); }
      forall i ensures i in statuses[1..] <==> i in inbox - {m} {
        assert statuses == [m] + statuses[1..];
      }
      AppliedIsRoster(StatusView(v, m), inbox - {m}, roster, statuses[1..]);
    }
  }

  /** Roster convergence: at any time in any run, a member's view with its undelivered statuses applied, in any
      order, equals the true roster. */
  lemma ViewsConverge(cfg: Config, states: seq<State>, events: seq<Event>, i: nat, x: string, statuses: seq<Member>)
    requires Run(cfg, states, events) && i < |states|
    requires x in states[i] && states[i][x].agent.group.Some?
    requires Enumerates(statuses, states[i][x].inbox)
    ensures ApplyStatuses(View(states[i][x]), statuses) == Roster(states[i])
  {
    RunKeepsInv(cfg, states, events, i);
    assert NodeOk(cfg, states[i][x], x, Roster(states[i]));
    AppliedIsRoster(View(states[i][x]), states[i][x].inbox, Roster(states[i]), statuses);
  }

  ghost predicate Quiescent(s: State) {
    forall x :: x in s ==> s[x].inbox == {}
  }

  /** At quiescence all members hold the same view, the roster, and the same cached checksum. */
  lemma QuiescentViewsAgree(cfg: Config, states: seq<State>, events: seq<Event>, i: nat, x: string, y: string)
    requires Run(cfg, states, events) && i < |states| && Quiescent(states[i])
    requires x in states[i] && states[i][x].agent.group.Some?
    requires y in states[i] && states[i][y].agent.group.Some?
    ensures View(states[i][x]) == View(states[i][y]) == Roster(states[i])
    ensures states[i][x].agent.group.value.checksum == states[i][y].agent.group.value.checksum
  {
    RunKeepsInv(cfg, states, events, i);
    SettledNode(cfg, states[i][x], x, Roster(states[i]));
    SettledNode(cfg, states[i][y], y, Roster(states[i]));
  }

  /** An agent outside the group, before joining or after leaving, holds no data filter and no index entry. */
  lemma OutsiderHoldsNothing(cfg: Config, states: seq<State>, events: seq<Event>, i: nat, x: string)
    requires Run(cfg, states, events) && i < |states|
    requires x in states[i] && states[i][x].agent.group.None?
    ensures states[i][x].agent.filters == multiset{} && states[i][x].agent.subs == map[]
  {
    RunKeepsInv(cfg, states, events, i);
    assert NodeOk(cfg, states[i][x], x, Roster(states[i]));
  }

  /** In every state a member holds the filters of the publishers in its view and on the roster: it drops that of
      a leaver when it processes the leave, and has that of a joiner before it processes the join. */
  lemma FiltersFollowViews(cfg: Config, states: seq<State>, events: seq<Event>, i: nat, x: string)
    requires Run(cfg, states, events) && i < |states|
    requires x in states[i] && states[i][x].agent.group.Some?
    ensures var known := View(states[i][x]) + Roster(states[i]);
            Keyed(known) && known.Keys <= cfg.agents &&
            states[i][x].agent.filters == PeerFilters(cfg.params.mode, cfg.topic, known, x)
  {
    RunKeepsInv(cfg, states, events, i);
    assert NodeOk(cfg, states[i][x], x, Roster(states[i]));
  }

  /** How often a member holds a filter: in multiple-queue mode that of each other publisher it knows exactly once
      and nothing else, in single-queue mode the shared one once per other publisher. */
  ghost function Held(cfg: Config, known: map<string, Member>, x: string, t: string): nat {
    var others := OtherPublishers(known, x);
    if cfg.params.mode == SingleQueue then
      if t == DataTopic(SingleQueue, cfg.topic, x, x) then |others| else 0
    else if exists p :: p in others && t == DataTopic(cfg.params.mode, cfg.topic, p, x) then 1 else 0
  }

  lemma FiltersHeld(cfg: Config, known: map<string, Member>, x: string, t: string)
    requires Keyed(known) && known.Keys <= cfg.agents
    requires cfg.params.mode == SingleQueue || (Plain(cfg.topic) && forall l :: l in cfg.agents ==> Plain(l))
    ensures PeerFilters(cfg.params.mode, cfg.topic, known, x)[t] == Held(cfg, known, x, t)
  {
    if cfg.params.mode == SingleQueue {
      SingleQueueFilters(cfg.topic, known, x, t);
    } else {
      MultipleQueueFilters(cfg.params.mode, cfg.topic, known, x, t);
    }
  }

  /** Data subscriptions are conserved: in every state a member holds each filter exactly as often as the publishers
      in its view and on the roster make due, and at quiescence as often as those on the roster do. */
  lemma FiltersConserved(cfg: Config, states: seq<State>, events: seq<Event>, i: nat, x: string, t: string)
    requires Run(cfg, states, events) && i < |states| && x in states[i]
    requires cfg.params.mode == SingleQueue || (Plain(cfg.topic) && forall l :: l in cfg.agents ==> Plain(l))
    ensures var s := states[i];
            s[x].agent.filters[t] == if s[x].agent.group.None? then 0 else Held(cfg, View(s[x]) + Roster(s), x, t)
    ensures Quiescent(states[i]) && states[i][x].agent.group.Some? ==>
              states[i][x].agent.filters[t] == Held(cfg, Roster(states[i]), x, t)
  {
    var s := states[i];
    if s[x].agent.group.None? {
      OutsiderHoldsNothing(cfg, states, events, i, x);
    } else {
      FiltersFollowViews(cfg, states, events, i, x);
      FiltersHeld(cfg, View(s[x]) + Roster(s), x, t);
      if Quiescent(s) {
        RunKeepsInv(cfg, states, events, i);
        SettledView(cfg, s, x);
        assert Roster(s) + Roster(s) == Roster(s);
      }
    }
  }

  lemma SettledIndex(cfg: Config, n: Node, x: string, roster: map<string, Member>)
    requires NodeOk(cfg, n, x, roster) && n.agent.group.Some? && n.inbox == {}
    ensures x in roster && IndexOk(cfg, x, roster[x].publisher, n.agent.subs, roster)
  {
    SettledNode(cfg, n, x, roster);
    assert View(n) + roster == roster;
  }

  lemma IndexNamesTheOthers(cfg: Config, n: Node, x: string, roster: map<string, Member>)
    requires NodeOk(cfg, n, x, roster) && n.agent.group.Some? && n.inbox == {}
    ensures x in roster && n.agent.subs.Keys <= View(n).Keys - {x}
    ensures roster[x].publisher ==> n.agent.subs.Keys == View(n).Keys - {x}
    ensures forall l :: l in n.agent.subs ==> IndexKey(cfg, x, l, n.agent.subs[l])
  {
    SettledNode(cfg, n, x, roster);
    SettledIndex(cfg, n, x, roster);
  }

  /** At quiescence a publisher's subscriber index holds exactly the other members, each with the key
      from the peer entry or from the member's subscription; anybody's index holds only other members. */
  lemma IndexesAgree(cfg: Config, states: seq<State>, events: seq<Event>, i: nat, x: string)
    requires Run(cfg, states, events) && i < |states| && Quiescent(states[i])
    requires x in states[i] && states[i][x].agent.group.Some?
    ensures var s := states[i];
            x in Roster(s) && s[x].agent.subs.Keys <= View(s[x]).Keys - {x} &&
            (Roster(s)[x].publisher ==> s[x].agent.subs.Keys == View(s[x]).Keys - {x}) &&
            forall l :: l in s[x].agent.subs ==> IndexKey(cfg, x, l, s[x].agent.subs[l])
  {
    RunKeepsInv(cfg, states, events, i);
    IndexNamesTheOthers(cfg, states[i][x], x, Roster(states[i]));
  }

  /** A join that was checked found every other active member holding exactly the acceptor's view. */
  lemma JoinFoundEqualViews(cfg: Config, states: seq<State>, events: seq<Event>, i: nat, l: string)
    requires Run(cfg, states, events) && i < |events| && events[i].Join? && cfg.params.joinConsistent
    requires l in View(states[i][events[i].acceptor]) && |View(states[i][events[i].acceptor])| > 1
    requires forall x :: x in states[i] && Keyed(View(states[i][x])) && Keyed(View(states[i][events[i].acceptor])) ==>
               NoViewCollision(cfg.h, View(states[i][x]), View(states[i][events[i].acceptor]))
    ensures l in states[i] && states[i][l].agent.group.Some? &&
            View(states[i][l]) == View(states[i][events[i].acceptor])
  {
    RunKeepsInv(cfg, states, events, i);
    assert Enabled(cfg, states[i], events[i]);
    EnabledJoinFoundEqualViews(cfg, states[i], events[i].m, events[i].acceptor, events[i].list, l);
  }

  lemma AcceptorWasConsistent(cfg: Config, s: State, m: Member, acceptor: string, list: seq<Member>)
    requires Inv(cfg, s) && Enabled(cfg, s, Join(m, acceptor, list)) && cfg.params.joinConsistent
    ensures JoinCheck.Consistent(cfg.h, acceptor, list, Answers(s))
    ensures forall l :: l in Roster(s) ==> Roster(s)[l].active
  {
    JoinFacts(cfg, s, m, acceptor, list);
    assert NodeOk(cfg, s[acceptor], acceptor, Roster(s));
  }

  lemma EnabledJoinFoundEqualViews(cfg: Config, s: State, m: Member, acceptor: string, list: seq<Member>, l: string)
    requires Inv(cfg, s) && Enabled(cfg, s, Join(m, acceptor, list)) && cfg.params.joinConsistent
    requires l in View(s[acceptor]) && |View(s[acceptor])| > 1
    requires forall x :: x in s && Keyed(View(s[x])) && Keyed(View(s[acceptor])) ==>
               NoViewCollision(cfg.h, View(s[x]), View(s[acceptor]))
    ensures l in s && s[l].agent.group.Some? && View(s[l]) == View(s[acceptor])
  {
    JoinFacts(cfg, s, m, acceptor, list);
    AcceptorWasConsistent(cfg, s, m, acceptor, list);
    OnRoster(cfg, s, l);
    AnswersAreCached(cfg, s);
    if l != acceptor {
      JoinCheck.AnswersHoldTheSameView(cfg.h, acceptor, list, Roster(s), Answers(s), HeldViews(s), l);
    }
  }

  /** The statuses on their way, with their receivers. */
  ghost function Backlog(s: State): set<(string, Member)> {
    set x, m | x in s && m in s[x].inbox :: (x, m)
  }

  lemma BacklogShrinks(cfg: Config, s: State, x: string, m: Member)
    requires Enabled(cfg, s, Deliver(x, m))
    ensures Backlog(Next(cfg, s, Deliver(x, m))) == Backlog(s) - {(x, m)} && (x, m) in Backlog(s)
  {
  }

  /** No run gets stuck: from every state, processing the statuses on their way, which is possible in any order, leads
      to a state in which nothing is on its way, with the same roster. */
  lemma {:induction false} Settles(cfg: Config, states: seq<State>, events: seq<Event>)
    returns (states': seq<State>, events': seq<Event>)
    requires Run(cfg, states, events)
    ensures Run(cfg, states', events') && events <= events' && states <= states'
    ensures forall i :: |events| <= i < |events'| ==> events'[i].Deliver?
    ensures Quiescent(states'[|events'|]) && Roster(states'[|events'|]) == Roster(states[|events|])
    decreases |Backlog(states[|events|])|
  {
    var s := states[|events|];
    if Quiescent(s) {
      states', events' := states, events;
    } else {
      var states1, events1 := OneDelivery(cfg, states, events);
      states', events' := Settles(cfg, states1, events1);
      assert forall i :: |events| <= i < |events'| ==> events'[i].Deliver? by {
        assert events'[|events|] == events1[|events|];
      }
      assert |states1| <= |states'| && states == states1[..|states|] == states'[..|states|];
      assert events == events1[..|events|] == events'[..|events|];
    }
  }

  lemma OneDelivery(cfg: Config, states: seq<State>, events: seq<Event>)
    returns (states': seq<State>, events': seq<Event>)
    requires Run(cfg, states, events) && !Quiescent(states[|events|])
    ensures Run(cfg, states', events') && |events'| == |events| + 1 && events <= events' && states <= states'
    ensures events'[|events|].Deliver?
    ensures Roster(states'[|events'|]) == Roster(states[|events|])
    ensures |Backlog(states'[|events'|])| < |Backlog(states[|events|])|
  {
    var s := states[|events|];
    var x, m :| x in s && m in s[x].inbox;
    StatusIsDeliverable(cfg, states, events, |events|, x, m);
    BacklogShrinks(cfg, s, x, m);
    DeliverKeepsInv(cfg, s, x, m);
    states', events' := Continued(cfg, states, events, Deliver(x, m));
  }

  lemma Continued(cfg: Config, states: seq<State>, events: seq<Event>, e: Event)
    returns (states': seq<State>, events': seq<Event>)
    requires Run(cfg, states, events) && Enabled(cfg, states[|events|], e)
    ensures states' == states + [Next(cfg, states[|events|], e)] && events' == events + [e] &&
            Run(cfg, states', events')
  {
    states', events' := states + [Next(cfg, states[|events|], e)], events + [e];
    forall i | 0 <= i < |events'|
      ensures Enabled(cfg, states'[i], events'[i]) && states'[i + 1] == Next(cfg, states'[i], events'[i])
    {
      if i < |events| {
        assert states'[i] == states[i] && states'[i + 1] == states[i + 1] && events'[i] == events[i];
      }
    }
  }

  /** In every state of a run any status on its way can be processed, at its receiver alone. */
  lemma StatusIsDeliverable(cfg: Config, states: seq<State>, events: seq<Event>, i: nat, x: string, m: Member)
    requires Run(cfg, states, events) && i < |states| && x in states[i] && m in states[i][x].inbox
    ensures Inv(cfg, states[i]) && Enabled(cfg, states[i], Deliver(x, m))
    ensures Next(cfg, states[i], Deliver(x, m)) - {x} == states[i] - {x}
  {
    RunKeepsInv(cfg, states, events, i);
    assert NodeOk(cfg, states[i][x], x, Roster(states[i]));
  }

  /** What the serialisation allows in every state of a run: while no joining is on its way every member may leave, and
      every agent without the group of which nothing is on its way may join through every member that has processed
      everything, if the check passes; and if there is no member any such agent may create the group. */
  lemma StepsPossible(cfg: Config, states: seq<State>, events: seq<Event>, i: nat, x: string, m: Member,
                      list: seq<Member>)
    requires Run(cfg, states, events) && i < |states|
    requires m.name in cfg.agents && m.active
    ensures (forall y :: y in states[i] ==> forall status :: status in states[i][y].inbox ==> !status.active) ==>
              (x in Roster(states[i]) ==> Enabled(cfg, states[i], Leave(x))) &&
              (x in Roster(states[i]) && states[i][x].inbox == {} && Lists(list, View(states[i][x])) &&
               m.name in states[i] && m.name !in Roster(states[i]) && states[i][m.name].inbox == {} &&
               (forall y :: y in states[i] ==> forall status :: status in states[i][y].inbox ==>
                status.name != m.name) &&
               (cfg.params.joinConsistent ==> JoinCheck.Consistent(cfg.h, x, list, Answers(states[i]))) ==>
               Enabled(cfg, states[i], Join(m, x, list)))
    ensures Roster(states[i]) == map[] && m.name in states[i] && states[i][m.name].inbox == {} &&
            (forall y :: y in states[i] ==> forall status :: status in states[i][y].inbox ==> status.name != m.name) ==>
              Enabled(cfg, states[i], Create(m))
  {
    var s := states[i];
    RunKeepsInv(cfg, states, events, i);
    forall y | y in s
      ensures s[y].agent.group.Some? <==> y in Roster(s)
      ensures s[y].agent.group.Some? ==> GroupOk(cfg, s[y].agent)
    {
      assert NodeOk(cfg, s[y], y, Roster(s));
    }
  }

  /** A joiner is turned away only for a status that is still on its way: at quiescence every agent outside the
      group can join through every member, and the check passes for every listing. */
  lemma QuiescentJoinAccepted(cfg: Config, states: seq<State>, events: seq<Event>, i: nat, m: Member, acceptor: string,
                              list: seq<Member>)
    requires Run(cfg, states, events) && i < |states| && Quiescent(states[i])
    requires m.name in states[i] && m.active && states[i][m.name].agent.group.None?
    requires acceptor in states[i] && states[i][acceptor].agent.group.Some? && Lists(list, View(states[i][acceptor]))
    ensures JoinCheck.Consistent(cfg.h, acceptor, list, Answers(states[i]))
    ensures Enabled(cfg, states[i], Join(m, acceptor, list))
  {
    var s := states[i];
    RunKeepsInv(cfg, states, events, i);
    SettledView(cfg, s, acceptor);
    AnswersAreCached(cfg, s);
    forall l | l in Roster(s) ensures l in HeldViews(s) && HeldViews(s)[l] == Roster(s) {
      OnRoster(cfg, s, l);
      SettledView(cfg, s, l);
    }
    JoinCheck.EqualViewsAreConsistent(cfg.h, acceptor, list, Roster(s), Answers(s), HeldViews(s));
    assert NodeOk(cfg, s[acceptor], acceptor, Roster(s));
  }

  ghost function HeldViews(s: State): map<string, map<string, Member>> {
    map x | x in s && s[x].agent.group.Some? :: View(s[x])
  }

  lemma AnswersAreCached(cfg: Config, s: State)
    requires Inv(cfg, s)
    ensures Answers(s).Keys == HeldViews(s).Keys
    ensures forall x :: x in HeldViews(s) ==>
              Keyed(HeldViews(s)[x]) && Answers(s)[x] == ViewChecksum(cfg.h, HeldViews(s)[x])
    ensures Keyed(Roster(s))
  {
    forall x | x in HeldViews(s) ensures Keyed(HeldViews(s)[x]) &&
      Answers(s)[x] == ViewChecksum(cfg.h, HeldViews(s)[x]) {
      CachedAnswer(cfg, s[x], x, Roster(s));
    }
    forall x | x in Roster(s) ensures Roster(s)[x].name == x {
      CachedAnswer(cfg, s[x], x, Roster(s));
    }
  }

  lemma CachedAnswer(cfg: Config, n: Node, x: string, roster: map<string, Member>)
    requires NodeOk(cfg, n, x, roster) && n.agent.group.Some?
    ensures Keyed(View(n)) && n.agent.group.value.checksum == ViewChecksum(cfg.h, View(n))
  {
  }

  /** Processing a status never empties a member map, so the checksum computation never panics: the agent itself
      stays in its view. */
  lemma StatusKeepsViewPopulated(cfg: Config, states: seq<State>, events: seq<Event>, i: nat, x: string, m: Member)
    requires Run(cfg, states, events) && i < |states| && x in states[i] && m in states[i][x].inbox
    requires states[i][x].agent.group.Some?
    ensures x in StatusView(View(states[i][x]), m)
  {
    RunKeepsInv(cfg, states, events, i);
    assert NodeOk(cfg, states[i][x], x, Roster(states[i]));
  }
}
