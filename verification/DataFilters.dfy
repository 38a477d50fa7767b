/** The data filters an agent holds for the publishers of a group.  A SUB socket counts its filters: setting
    the same filter twice takes two removals. */
module DataFilters {
  import opened Models
  import opened Topics
  import opened Validator

  predicate Wanted(m: Member, me: string) {
    m.publisher && m.name != me
  }

  function FilterFor(mode: GroupMode, topic: string, m: Member, me: string): multiset<string> {
    if Wanted(m, me) then multiset{DataTopic(mode, topic, m.name, me)} else multiset{}
  }

  /** One filter for every other publisher of the list. */
  function FiltersOf(mode: GroupMode, topic: string, grp: seq<Member>, me: string): multiset<string> {
    if grp == [] then multiset{}
    else FiltersOf(mode, topic, grp[..|grp| - 1], me) + FilterFor(mode, topic, grp[|grp| - 1], me)
  }

  /** The other publishers of the list that have the topic `t`. */
  function HoldersOf(mode: GroupMode, topic: string, grp: seq<Member>, me: string, t: string): set<Member> {
    set m | m in grp && Wanted(m, me) && DataTopic(mode, topic, m.name, me) == t
  }

  lemma HoldersStep(mode: GroupMode, topic: string, init: seq<Member>, last: Member, me: string, t: string)
    requires UniqueLabels(init + [last])
    ensures |HoldersOf(mode, topic, init + [last], me, t)| ==
              |HoldersOf(mode, topic, init, me, t)| + if Wanted(last, me) && DataTopic(mode, topic, last.name, me) == t
                then 1 else 0
  {
    var before, after := HoldersOf(mode, topic, init, me, t), HoldersOf(mode, topic, init + [last], me, t);
    assert (init + [last])[|init|] == last;
    assert forall i :: 0 <= i < |init| ==> (init + [last])[i] == init[i] && init[i].name != last.name;
    var news := if Wanted(last, me) && DataTopic(mode, topic, last.name, me) == t then {last} else {};
    assert after == before + news;
  }

  lemma {:induction false} FiltersCount(mode: GroupMode, topic: string, grp: seq<Member>, me: string, t: string)
    requires UniqueLabels(grp)
    ensures FiltersOf(mode, topic, grp, me)[t] == |HoldersOf(mode, topic, grp, me, t)|
  {
    if grp != [] {
      var init, last := grp[..|grp| - 1], grp[|grp| - 1];
      FiltersCount(mode, topic, init, me, t);
      assert grp == init + [last];
      HoldersStep(mode, topic, init, last, me, t);
    } else {
      assert HoldersOf(mode, topic, grp, me, t) == {};
    }
  }

  lemma SameMembersSameFilters(mode: GroupMode, topic: string, a: seq<Member>, b: seq<Member>, me: string)
    requires UniqueLabels(a) && UniqueLabels(b)
    requires forall m :: m in a <==> m in b
    ensures FiltersOf(mode, topic, a, me) == FiltersOf(mode, topic, b, me)
  {
    forall t ensures FiltersOf(mode, topic, a, me)[t] == FiltersOf(mode, topic, b, me)[t] {
      FiltersCount(mode, topic, a, me, t);
      FiltersCount(mode, topic, b, me, t);
      assert HoldersOf(mode, topic, a, me, t) == HoldersOf(mode, topic, b, me, t);
    }
  }

  /** The filters for the other publishers of a member map. */
  ghost function PeerFilters(mode: GroupMode, topic: string, members: map<string, Member>, me: string): multiset<string>
    requires Keyed(members)
  {
    FiltersOf(mode, topic, Listing(members), me)
  }

  lemma SameMapSameElements(a: seq<Member>, b: seq<Member>, members: map<string, Member>)
    requires Lists(a, members) && Lists(b, members)
    ensures forall m :: m in a <==> m in b
  {
    forall m ensures m in a <==> m in b {
      if m in a { assert members[m.name] in b; }
      if m in b { assert members[m.name] in a; }
    }
  }

  lemma FiltersOfListing(mode: GroupMode, topic: string, grp: seq<Member>, members: map<string, Member>, me: string)
    requires Keyed(members) && Lists(grp, members)
    ensures FiltersOf(mode, topic, grp, me) == PeerFilters(mode, topic, members, me)
  {
    SameMapSameElements(grp, Listing(members), members);
    SameMembersSameFilters(mode, topic, grp, Listing(members), me);
  }

  lemma PeerFiltersAdd(mode: GroupMode, topic: string, members: map<string, Member>, m: Member, me: string)
    requires Keyed(members) && m.name !in members
    ensures PeerFilters(mode, topic, members[m.name := m], me) ==
            PeerFilters(mode, topic, members, me) + FilterFor(mode, topic, m, me)
  {
    var grp := Listing(members);
    AppendLists(grp, members, m);
    FiltersOfListing(mode, topic, grp + [m], members[m.name := m], me);
    assert (grp + [m])[..|grp|] == grp;
  }

  lemma PeerFiltersRemove(mode: GroupMode, topic: string, members: map<string, Member>, l: string, me: string)
    requires Keyed(members) && l in members
    ensures PeerFilters(mode, topic, members, me) ==
            PeerFilters(mode, topic, members - {l}, me) + FilterFor(mode, topic, members[l], me)
  {
    PeerFiltersAdd(mode, topic, members - {l}, members[l], me);
    assert (members - {l})[l := members[l]] == members;
  }

  lemma NoPeersNoFilters(mode: GroupMode, topic: string, members: map<string, Member>, me: string)
    requires Keyed(members) && members.Keys <= {me}
    ensures PeerFilters(mode, topic, members, me) == multiset{}
  {
    var grp := Listing(members);
    forall t ensures PeerFilters(mode, topic, members, me)[t] == 0 {
      FiltersCount(mode, topic, grp, me, t);
      assert HoldersOf(mode, topic, grp, me, t) == {};
    }
  }

  /** The labels of the other publishers. */
  function OtherPublishers(members: map<string, Member>, me: string): set<string> {
    set l | l in members && members[l].publisher && l != me
  }

  lemma HoldersSize(mode: GroupMode, topic: string, members: map<string, Member>, me: string, t: string,
                    names: set<string>)
    requires Keyed(members)
    requires forall l :: l in names <==> l in OtherPublishers(members, me) && DataTopic(mode, topic, l, me) == t
    ensures |HoldersOf(mode, topic, Listing(members), me, t)| == |names|
  {
    var grp := Listing(members);
    var holders := HoldersOf(mode, topic, grp, me, t);
    forall l ensures l in names <==> l in members && members[l] in holders { }
    SameSize(members, names, holders);
  }

  lemma {:induction false} SameSize(members: map<string, Member>, names: set<string>, holders: set<Member>)
    requires Keyed(members)
    requires forall l :: l in names <==> l in members && members[l] in holders
    requires forall m :: m in holders ==> m.name in members && members[m.name] == m
    ensures |names| == |holders|
    decreases names
  {
    assert forall m :: m in holders ==> m.name in names;
    if names == {} {
      assert holders == {};
    } else {
      var l :| l in names;
      SameSize(members, names - {l}, holders - {members[l]});
    }
  }

  /** Multiple-queue mode: each other publisher has its own filter, held once, and there are no further filters. */
  lemma MultipleQueueFilters(mode: GroupMode, topic: string, members: map<string, Member>, me: string, t: string)
    requires Keyed(members) && mode != SingleQueue && Plain(topic)
    requires forall l :: l in members ==> Plain(l)
    ensures PeerFilters(mode, topic, members, me)[t] ==
              if exists l :: l in OtherPublishers(members, me) && DataTopic(mode, topic, l, me) == t then 1 else 0
  {
    var names := set l | l in OtherPublishers(members, me) && DataTopic(mode, topic, l, me) == t;
    FiltersCount(mode, topic, Listing(members), me, t);
    HoldersSize(mode, topic, members, me, t, names);
    if l :| l in OtherPublishers(members, me) && DataTopic(mode, topic, l, me) == t {
      forall l' | l' in names ensures l' == l {
        PublisherOfTopic(mode, topic, l, l', me);
      }
      assert names == {l};
    } else {
      assert names == {};
    }
  }

  /** Single-queue mode: the shared filter is held once per other publisher, and there are no further filters. */
  lemma SingleQueueFilters(topic: string, members: map<string, Member>, me: string, t: string)
    requires Keyed(members)
    ensures PeerFilters(SingleQueue, topic, members, me)[t] ==
              if t == DataTopic(SingleQueue, topic, me, me) then |OtherPublishers(members, me)| else 0
  {
    var names := set l | l in OtherPublishers(members, me) && DataTopic(SingleQueue, topic, l, me) == t;
    FiltersCount(SingleQueue, topic, Listing(members), me, t);
    HoldersSize(SingleQueue, topic, members, me, t, names);
    assert names == if t == DataTopic(SingleQueue, topic, me, me) then OtherPublishers(members, me) else {};
  }
}
