/** What one agent's handlers do to its own state for one topic: `Create`, the joiner's part of `Join`, the
    answering member's part, `Leave`, and the processing of a status (`pubsub/agent.go`, `pubsub/processor.go`). */
module LocalSteps {
  import opened Base64
  import opened Models
  import opened Topics
  import opened Validator
  import opened GroupStore
  import opened DataFilters

  type Key = seq<byte>

  /** The topic's entry in the group store, the topic's subscriber index, and the data filters of the SUB socket. */
  datatype Agent = Agent(group: Option<Group>, subs: map<string, Key>, filters: multiset<string>)

  /** The agent has the topic with its parameters; reading the mode of another topic panics. */
  ghost predicate HasTopic(a: Agent) {
    a.group.Some? && a.group.value.params.Some? && Keyed(a.group.value.members)
  }

  function Members(a: Agent): map<string, Member> {
    if a.group.Some? then a.group.value.members else map[]
  }

  predicate HasMode(a: Agent) {
    a.group.Some? && a.group.value.params.Some?
  }

  function Mode(a: Agent): GroupMode
    requires HasMode(a)
  {
    a.group.value.params.value.mode
  }

  /** `SetParams` followed by `AddMembrs`. */
  ghost function Populated(h: Digest, a: Agent, gp: GroupParams, mems: seq<Member>): Group
    requires Keyed(Members(a))
  {
    MergedKeyed(Members(a), mems);
    WithMembers(h, (if a.group.Some? then a.group.value else EMPTY).(params := Some(gp)), Merged(Members(a), mems))
  }

  ghost function Created(h: Digest, a: Agent, gp: GroupParams, m: Member): Agent
    requires Keyed(Members(a))
  {
    a.(group := Some(Populated(h, a, gp, [m])))
  }

  /** `connectData`: connecting to a publisher sets the filter for its data topic. */
  function ConnectFilter(mode: GroupMode, topic: string, peer: Member, me: string): multiset<string> {
    if peer.publisher then multiset{DataTopic(mode, topic, peer.name, me)} else multiset{}
  }

  /** A member answers the subscription of the joiner `j`; setting the filter for a publisher needs the mode. */
  function Subscribed(topic: string, a: Agent, me: string, j: Member, key: Key): Agent {
    a.(filters := a.filters +
       (if HasMode(a) then ConnectFilter(Mode(a), topic, j, me) else multiset{}), subs := a.subs[j.name := key])
  }

  /** The joiner connects to one listed member; only a publisher indexes it. */
  function Connected(topic: string, a: Agent, me: string, mode: GroupMode, publisher: bool, m: Member,
                     key: Key): Agent {
    a.(filters := a.filters + ConnectFilter(mode, topic, m, me),
       subs := if publisher then a.subs[m.name := key] else a.subs)
  }

  /** The loop over the active listed members. */
  function ConnectedAll(topic: string, a: Agent, me: string, mode: GroupMode, publisher: bool, list: seq<Member>,
                        key: string -> Key): Agent {
    if list == [] then a
    else
      var m := list[|list| - 1];
      var before := ConnectedAll(topic, a, me, mode, publisher, list[..|list| - 1], key);
      if m.active then Connected(topic, before, me, mode, publisher, m, key(m.name)) else before
  }

  /** The joiner's own part of a join that was not rejected. */
  ghost function Joined(h: Digest, topic: string, a: Agent, gp: GroupParams, list: seq<Member>, joiner: Member,
                        key: string -> Key): Agent
    requires Keyed(Members(a))
  {
    ConnectedAll(topic, a, joiner.name, gp.mode, joiner.publisher, list, key)
      .(group := Some(Populated(h, a, gp, list + [joiner])))
  }

  ghost function Left(topic: string, a: Agent, me: string): Agent
    requires Keyed(Members(a))
  {
    Agent(None, map[], a.filters - if HasMode(a) then PeerFilters(Mode(a), topic, Members(a), me) else multiset{})
  }

  /** The member map after a status. */
  function StatusView(members: map<string, Member>, m: Member): map<string, Member> {
    if m.active then members[m.name := m] else members - {m.name}
  }

  /** What processing a status leaves.  On a topic without an entry an active status makes an entry without
      parameters; removing the filter of a publisher needs the mode. */
  ghost function StatusApplied(h: Digest, topic: string, a: Agent, me: string, m: Member): Agent
    requires Keyed(Members(a))
  {
    var group := if a.group.Some? then a.group.value else EMPTY;
    var group' := WithMembers(h, group, StatusView(Members(a), m));
    if m.active then a.(group := Some(group'))
    else if a.group.None? then a.(subs := a.subs - {m.name})
    else Agent(Some(group'), a.subs - {m.name}, a.filters - if HasMode(a)
               then ConnectFilter(Mode(a), topic, m, me) else multiset{})
  }

  /** Connecting does not depend on the group entry. */
  lemma {:induction false} ConnectedAllGroup(topic: string, a: Agent, g: Option<Group>, me: string, mode: GroupMode,
                                             publisher: bool, list: seq<Member>, key: string -> Key)
    ensures ConnectedAll(topic, a.(group := g), me, mode, publisher, list, key) ==
            ConnectedAll(topic, a, me, mode, publisher, list, key).(group := g)
  {
    if list != [] {
      ConnectedAllGroup(topic, a, g, me, mode, publisher, list[..|list| - 1], key);
    }
  }

  function ActiveOnly(list: seq<Member>): seq<Member> {
    if list == [] then []
    else
      var init, last := ActiveOnly(list[..|list| - 1]), list[|list| - 1];
      if last.active then init + [last] else init
  }

  lemma {:induction false} AllActive(list: seq<Member>)
    requires forall m :: m in list ==> m.active
    ensures ActiveOnly(list) == list
  {
    if list != [] {
      assert list[|list| - 1] in list;
      AllActive(list[..|list| - 1]);
      assert list == list[..|list| - 1] + [list[|list| - 1]];
    }
  }

  /** The loop sets the filters of the active listed publishers, inactive entries being skipped. */
  lemma {:induction false} ConnectedFilters(topic: string, a: Agent, me: string, mode: GroupMode, publisher: bool,
                                            list: seq<Member>, key: string -> Key)
    requires forall m :: m in list && m.active ==> m.name != me
    ensures var connected := ConnectedAll(topic, a, me, mode, publisher, list, key);
            connected.group == a.group && connected.filters == a.filters + FiltersOf(mode, topic, ActiveOnly(list), me)
  {
    if list != [] {
      var init, last := list[..|list| - 1], list[|list| - 1];
      assert last in list;
      ConnectedFilters(topic, a, me, mode, publisher, init, key);
      if last.active {
        FiltersAppend(mode, topic, ActiveOnly(init), last, me);
      }
    }
  }

  lemma FiltersAppend(mode: GroupMode, topic: string, list: seq<Member>, last: Member, me: string)
    requires last.name != me
    ensures FiltersOf(mode, topic, list + [last], me) ==
            FiltersOf(mode, topic, list, me) + ConnectFilter(mode, topic, last, me)
  {
    assert (list + [last])[..|list|] == list;
  }

  /** A publisher indexes exactly the active listed members. */
  lemma {:induction false} ConnectedSubs(topic: string, a: Agent, me: string, mode: GroupMode, publisher: bool,
                                         list: seq<Member>, key: string -> Key, l: string)
    ensures var subs := ConnectedAll(topic, a, me, mode, publisher, list, key).subs;
            if publisher && Named(ActiveOnly(list), l) then l in subs && subs[l] == key(l)
            else (l in subs <==> l in a.subs) && (l in subs ==> subs[l] == a.subs[l])
  {
    if list != [] {
      var init, last := list[..|list| - 1], list[|list| - 1];
      ConnectedSubs(topic, a, me, mode, publisher, init, key, l);
      if last.active {
        assert ActiveOnly(list) == ActiveOnly(init) + [last];
        assert Named(ActiveOnly(list), l) <==> Named(ActiveOnly(init), l) || last.name == l;
      } else {
        assert ActiveOnly(list) == ActiveOnly(init);
      }
    }
  }
}
