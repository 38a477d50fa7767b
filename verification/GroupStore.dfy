/** `pubsub/stores/group.go`: per topic, the member map, the parameters and the cached checksum. */
module GroupStore {
  import opened Base64
  import opened Models
  import opened Validator

  datatype Group = Group(checksum: string, members: map<string, Member>, params: Option<GroupParams>)

  type Groups = map<string, Group>

  const EMPTY := Group("", map[], None)

  // ------------------------------------------------------------------- what the operations compute

  function Existing(gs: Groups, topic: string): Group {
    if topic in gs then gs[topic] else EMPTY
  }

  function Merged(members: map<string, Member>, mems: seq<Member>): map<string, Member> {
    if mems == [] then members
    else Merged(members, mems[..|mems| - 1])[mems[|mems| - 1].name := mems[|mems| - 1]]
  }

  lemma {:induction false} MergedKeyed(members: map<string, Member>, mems: seq<Member>)
    requires Keyed(members)
    ensures Keyed(Merged(members, mems))
    ensures mems != [] ==> Merged(members, mems) != map[]
  {
    if mems != [] {
      MergedKeyed(members, mems[..|mems| - 1]);
      assert mems[|mems| - 1].name in Merged(members, mems);
    }
  }

  /** What merging yields: old and new labels, for each new one the last record, for the others the old one. */
  lemma MergedRecords(members: map<string, Member>, mems: seq<Member>)
    ensures forall l :: l in Merged(members, mems) <==> l in members || exists m :: m in mems && m.name == l
    ensures forall k :: 0 <= k < |mems| && (forall j :: k < j < |mems| ==> mems[j].name != mems[k].name) ==>
              Merged(members, mems)[mems[k].name] == mems[k]
    ensures forall l :: l in members && (forall m :: m in mems ==> m.name != l) ==>
              Merged(members, mems)[l] == members[l]
  {
    forall l ensures l in Merged(members, mems) <==> l in members || exists m :: m in mems && m.name == l
      ensures l in members && (forall m :: m in mems ==> m.name != l) ==> Merged(members, mems)[l] == members[l]
    {
      MergedLabel(members, mems, l);
    }
    forall k | 0 <= k < |mems| && forall j :: k < j < |mems| ==> mems[j].name != mems[k].name
      ensures mems[k].name in Merged(members, mems) && Merged(members, mems)[mems[k].name] == mems[k]
    {
      MergedLast(members, mems, k);
    }
  }

  lemma {:induction false} MergedLabel(members: map<string, Member>, mems: seq<Member>, l: string)
    ensures l in Merged(members, mems) <==> l in members || exists m :: m in mems && m.name == l
    ensures l in members && (forall m :: m in mems ==> m.name != l) ==> Merged(members, mems)[l] == members[l]
  {
    if mems != [] {
      var init, last := mems[..|mems| - 1], mems[|mems| - 1];
      MergedLabel(members, init, l);
      assert mems == init + [last];
    }
  }

  lemma {:induction false} MergedLast(members: map<string, Member>, mems: seq<Member>, k: nat)
    requires k < |mems| && forall j :: k < j < |mems| ==> mems[j].name != mems[k].name
    ensures mems[k].name in Merged(members, mems) && Merged(members, mems)[mems[k].name] == mems[k]
  {
    if k < |mems| - 1 {
      var init, last := mems[..|mems| - 1], mems[|mems| - 1];
      MergedLast(members, init, k);
      assert last.name != mems[k].name && init[k] == mems[k];
    }
  }

  lemma MergedOne(members: map<string, Member>, m: Member)
    ensures Merged(members, [m]) == members[m.name := m]
  {
    assert [m][..0] == [];
  }

  /** The group with the given members; the checksum is recomputed unless the member map became empty, where
      the computation panics and the old checksum stays. */
  ghost function WithMembers(h: Digest, g: Group, members: map<string, Member>): Group
    requires Keyed(members)
  {
    g.(members := members, checksum := if members == map[] then g.checksum else ViewChecksum(h, members))
  }

  ghost predicate KeyedStore(gs: Groups) {
    forall t :: t in gs ==> Keyed(gs[t].members)
  }

  /** Every member sits under its own label, and a populated group caches the checksum of its members. */
  ghost predicate ValidStore(h: Digest, gs: Groups) {
    KeyedStore(gs) &&
    forall t :: t in gs && gs[t].members != map[] ==> gs[t].checksum == ViewChecksum(h, gs[t].members)
  }

  ghost function Added(h: Digest, gs: Groups, topic: string, mems: seq<Member>): Groups
    requires KeyedStore(gs)
  {
    if mems == [] && topic !in gs then gs
    else
      MergedKeyed(Existing(gs, topic).members, mems);
      gs[topic := WithMembers(h, Existing(gs, topic), Merged(Existing(gs, topic).members, mems))]
  }

  ghost function Deleted(h: Digest, gs: Groups, topic: string, membr: string): Groups
    requires KeyedStore(gs)
  {
    if topic !in gs then gs
    else gs[topic := WithMembers(h, gs[topic], gs[topic].members - {membr})]
  }

  function ParamsSet(gs: Groups, topic: string, gp: GroupParams): Groups {
    if !gp.mode.Valid() then gs else gs[topic := Existing(gs, topic).(params := Some(gp))]
  }

  // ------------------------------------------------------------------------ sequences of operations

  datatype Operation =
    | SetParams(topic: string, params: GroupParams)
    | AddMembrs(topic: string, mems: seq<Member>)
    | DeleteMembr(topic: string, membr: string)
    | DeleteTopic(topic: string)

  ghost function Apply(h: Digest, gs: Groups, op: Operation): Groups
    requires KeyedStore(gs)
  {
    match op
    case SetParams(t, gp) => ParamsSet(gs, t, gp)
    case AddMembrs(t, mems) => Added(h, gs, t, mems)
    case DeleteMembr(t, m) => Deleted(h, gs, t, m)
    case DeleteTopic(t) => gs - {t}
  }

  lemma UpdateValid(h: Digest, gs: Groups, topic: string, g: Group, members: map<string, Member>)
    requires ValidStore(h, gs) && Keyed(members)
    ensures ValidStore(h, gs[topic := WithMembers(h, g, members)])
  {
  }

  lemma ApplyValid(h: Digest, gs: Groups, op: Operation)
    requires ValidStore(h, gs)
    ensures ValidStore(h, Apply(h, gs, op))
  {
    match op
    case AddMembrs(t, mems) =>
      MergedKeyed(Existing(gs, t).members, mems);
      UpdateValid(h, gs, t, Existing(gs, t), Merged(Existing(gs, t).members, mems));
    case DeleteMembr(t, m) =>
      UpdateValid(h, gs, t, Existing(gs, t), Existing(gs, t).members - {m});
    case _ =>
  }

  ghost function ApplyAll(h: Digest, gs: Groups, ops: seq<Operation>): (r: Groups)
    requires ValidStore(h, gs)
    ensures ValidStore(h, r)
    decreases |ops|
  {
    if ops == [] then gs
    else
      ApplyValid(h, gs, ops[0]);
      ApplyAll(h, Apply(h, gs, ops[0]), ops[1..])
  }

  /** After any operations on a new store, a populated topic caches the checksum recomputed from its members,
      in whatever order they are listed. */
  lemma CachedChecksumIsCurrent(h: Digest, ops: seq<Operation>, topic: string, grp: seq<Member>)
    requires topic in ApplyAll(h, map[], ops)
    requires Lists(grp, ApplyAll(h, map[], ops)[topic].members) && grp != []
    ensures ApplyAll(h, map[], ops)[topic].checksum == Checksum(h, grp)
  {
    var g := ApplyAll(h, map[], ops)[topic];
    ListingEmpty(grp, g.members);
    ChecksumOfAnyListing(h, grp, g.members);
  }

  /** Two populated topics, of one store or of two agents' stores and after whatever operations, cache equal
      checksums exactly when they have equal members, unless the digest collides on the two encodings. */
  lemma EqualCachesEqualMembers(h: Digest, ops: seq<Operation>, ops': seq<Operation>, topic: string, topic': string)
    requires topic in ApplyAll(h, map[], ops) && topic' in ApplyAll(h, map[], ops')
    requires var a, b := ApplyAll(h, map[], ops)[topic].members, ApplyAll(h, map[], ops')[topic'].members;
             a != map[] && b != map[] && NoViewCollision(h, a, b)
    ensures var g, g' := ApplyAll(h, map[], ops)[topic], ApplyAll(h, map[], ops')[topic'];
            g.checksum == g'.checksum <==> g.members == g'.members
  {
    var g, g' := ApplyAll(h, map[], ops)[topic], ApplyAll(h, map[], ops')[topic'];
    EqualChecksumsEqualViews(h, g.members, g'.members);
  }

  /** The store after the loop of `AddMembrs`, before the checksum is recomputed. */
  function Loaded(gs: Groups, topic: string, mems: seq<Member>): Groups {
    if mems == [] then gs
    else gs[topic := Existing(gs, topic).(members := Merged(Existing(gs, topic).members, mems))]
  }

  lemma LoadedStep(gs: Groups, topic: string, mems: seq<Member>, i: nat)
    requires i < |mems|
    ensures var g := Existing(Loaded(gs, topic, mems[..i]), topic);
            Loaded(gs, topic, mems[..i + 1]) ==
              Loaded(gs, topic, mems[..i])[topic := g.(members := g.members[mems[i].name := mems[i]])]
  {
    assert mems[..i + 1][..i] == mems[..i];
  }

  lemma UpdateTwice<K, V>(m: map<K, V>, k: K, a: V, b: V)
    ensures m[k := a][k := b] == m[k := b]
  {
  }

  lemma UpdateOthers<K, V>(m: map<K, V>, k: K, v: V)
    ensures m[k := v] - {k} == m - {k}
  {
  }

  /** What adding members leaves. */
  lemma AddedGroup(h: Digest, gs: Groups, topic: string, mems: seq<Member>)
    requires KeyedStore(gs)
    ensures var gs' := Added(h, gs, topic, mems);
            gs' - {topic} == gs - {topic} && (topic in gs' <==> topic in gs || mems != []) &&
            (topic in gs' ==>
             gs'[topic].members == Merged(if topic in gs then gs[topic].members else map[], mems) &&
             gs'[topic].params == if topic in gs then gs[topic].params else None)
  {
    if mems != [] || topic in gs {
      MergedKeyed(Existing(gs, topic).members, mems);
      UpdateOthers(gs, topic, WithMembers(h, Existing(gs, topic), Merged(Existing(gs, topic).members, mems)));
    }
  }

  /** What deleting a member leaves. */
  lemma DeletedGroup(h: Digest, gs: Groups, topic: string, membr: string)
    requires KeyedStore(gs)
    ensures var gs' := Deleted(h, gs, topic, membr);
            gs'.Keys == gs.Keys && gs' - {topic} == gs - {topic} &&
            (topic in gs ==> gs'[topic].members == gs[topic].members - {membr} && gs'[topic].params == gs[topic].params)
  {
    if topic in gs {
      UpdateOthers(gs, topic, WithMembers(h, gs[topic], gs[topic].members - {membr}));
    }
  }

  /** What setting valid parameters leaves. */
  lemma ParamsGroup(gs: Groups, topic: string, gp: GroupParams)
    requires gp.mode == SingleQueue || gp.mode == MultipleQueue
    ensures var gs' := ParamsSet(gs, topic, gp);
            gs' - {topic} == gs - {topic} && topic in gs' && gs'[topic].params == Some(gp) &&
            gs'[topic].members == (if topic in gs then gs[topic].members else map[]) &&
            gs'[topic].checksum == if topic in gs then gs[topic].checksum else ""
  {
    UpdateOthers(gs, topic, Existing(gs, topic).(params := Some(gp)));
  }

  /** Setting parameters first makes a missing entry. */
  lemma ParamsInTwo(gs: Groups, topic: string, gp: GroupParams)
    requires gp.mode.Valid()
    ensures var gs' := if topic in gs then gs else gs[topic := EMPTY];
            gs'[topic := gs'[topic].(params := Some(gp))] == ParamsSet(gs, topic, gp)
  {
    UpdateTwice(gs, topic, EMPTY, EMPTY.(params := Some(gp)));
  }

  /** Deleting shrinks the group and then recomputes its checksum. */
  lemma ShrunkDeleted(h: Digest, gs: Groups, topic: string, membr: string)
    requires KeyedStore(gs) && topic in gs
    ensures var shrunk := gs[topic].(members := gs[topic].members - {membr});
            Keyed(shrunk.members) &&
            gs[topic := shrunk][topic := WithMembers(h, shrunk, shrunk.members)] == Deleted(h, gs, topic, membr)
  {
    var shrunk := gs[topic].(members := gs[topic].members - {membr});
    assert WithMembers(h, shrunk, shrunk.members) == WithMembers(h, gs[topic], shrunk.members);
    UpdateTwice(gs, topic, shrunk, WithMembers(h, shrunk, shrunk.members));
  }

  lemma LoadedAdded(h: Digest, gs: Groups, topic: string, mems: seq<Member>)
    requires KeyedStore(gs)
    ensures topic !in Loaded(gs, topic, mems) ==> mems == [] && Added(h, gs, topic, mems) == gs
    ensures topic in Loaded(gs, topic, mems) ==>
              var gs' := Loaded(gs, topic, mems);
              Keyed(gs'[topic].members) &&
              Added(h, gs, topic, mems) == gs'[topic := WithMembers(h, gs'[topic], gs'[topic].members)] &&
              (gs'[topic].members == map[] <==> mems == [] && Existing(gs, topic).members == map[])
  {
    var g := Existing(gs, topic);
    MergedKeyed(g.members, mems);
    if mems != [] {
      var loaded := g.(members := Merged(g.members, mems));
      assert Loaded(gs, topic, mems)[topic] == loaded;
      assert WithMembers(h, loaded, loaded.members) == WithMembers(h, g, loaded.members);
      UpdateTwice(gs, topic, loaded, WithMembers(h, g, loaded.members));
    }
  }

  lemma WithoutEmpty(members: map<string, Member>, membr: string)
    ensures members - {membr} == map[] <==> members.Keys <= {membr}
  {
    assert (members - {membr}).Keys == members.Keys - {membr};
    assert members - {membr} == map[] <==> (members - {membr}).Keys == {};
  }

  lemma ListingEmpty(grp: seq<Member>, members: map<string, Member>)
    requires Lists(grp, members)
    ensures grp == [] <==> members == map[]
  {
    if grp != [] {
      assert grp[0] in grp;
      assert grp[0].name in members;
    } else {
      assert forall l :: l !in members;
    }
  }

  // -------------------------------------------------------------------------------------- the store

  class Store {
    const h: Digest
    var groups: Groups

    ghost predicate Valid()
      reads this
    {
      IsDigest(h) && ValidStore(h, groups)
    }

    constructor (h: Digest)
      requires IsDigest(h)
      ensures Valid() && groups == map[] && this.h == h
    {
      this.h := h;
      groups := map[];
    }

    /** Adds to the members of the topic the last record of each label; the parameters and the other topics stay.
        Panics without a member to add when the topic is new or its group is empty. */
    method AddMembrs(topic: string, mems: seq<Member>) returns (done: Call<()>)
      requires Valid()
      modifies this
      ensures Valid()
      ensures groups == Apply(h, old(groups), Operation.AddMembrs(topic, mems))
      ensures done.Panicked? <==> mems == [] && (topic in old(groups) ==> old(groups)[topic].members == map[])
      ensures groups - {topic} == old(groups) - {topic}
      ensures topic in groups <==> topic in old(groups) || mems != []
      ensures topic in groups ==>
                groups[topic].params == if topic in old(groups) then old(groups)[topic].params else None
      ensures topic in groups ==> forall l ::
                l in groups[topic].members <==>
                (topic in old(groups) && l in old(groups)[topic].members) || exists m :: m in mems && m.name == l
      ensures topic in groups ==>
                forall k :: 0 <= k < |mems| && (forall j :: k < j < |mems| ==> mems[j].name != mems[k].name) ==>
                  groups[topic].members[mems[k].name] == mems[k]
      ensures topic in groups && topic in old(groups) ==>
                forall l :: l in old(groups)[topic].members && (forall m :: m in mems ==> m.name != l) ==>
                  groups[topic].members[l] == old(groups)[topic].members[l]
    {
      done := AddInOrder(topic, mems);
      AddedGroup(h, old(groups), topic, mems);
      MergedRecords(if topic in old(groups) then old(groups)[topic].members else map[], mems);
    }

    /** The loop over the members. */
    method AddInOrder(topic: string, mems: seq<Member>) returns (done: Call<()>)
      requires Valid()
      modifies this
      ensures Valid() && groups == Apply(h, old(groups), Operation.AddMembrs(topic, mems))
      ensures done.Panicked? <==> mems == [] && Existing(old(groups), topic).members == map[]
    {
      for i := 0 to |mems|
        invariant groups == Loaded(old(groups), topic, mems[..i])
      {
        LoadedStep(old(groups), topic, mems, i);
        var g := Existing(groups, topic);
        groups := groups[topic := g.(members := g.members[mems[i].name := mems[i]])];
      }
      assert mems[..|mems|] == mems;
      LoadedAdded(h, old(groups), topic, mems);
      ApplyValid(h, old(groups), Operation.AddMembrs(topic, mems));
      if topic !in groups {
        return Panicked;
      }
      done := Rehash(topic);
    }

    /** Ranges over the members, recomputes the checksum and stores it. */
    method Rehash(topic: string) returns (done: Call<()>)
      requires IsDigest(h) && topic in groups && Keyed(groups[topic].members)
      modifies this
      ensures groups == old(groups)[topic := WithMembers(h, old(groups)[topic], old(groups)[topic].members)]
      ensures done.Panicked? <==> old(groups)[topic].members == map[]
    {
      var gm := Membrs(topic);
      var hash := Calculate(h, gm);
      ListingEmpty(gm, groups[topic].members);
      if hash.Panicked? {
        return Panicked;
      }
      ChecksumOfAnyListing(h, gm, groups[topic].members);
      groups := groups[topic := groups[topic].(checksum := hash.value)];
      done := Returned(());
    }

    /** Removes one member of one topic.  Panics exactly when the group exists and nobody is left in it. */
    method DeleteMembr(topic: string, membr: string) returns (done: Call<()>)
      requires Valid()
      modifies this
      ensures Valid()
      ensures groups == Apply(h, old(groups), Operation.DeleteMembr(topic, membr))
      ensures done.Panicked? <==> topic in old(groups) && old(groups)[topic].members.Keys <= {membr}
      ensures groups.Keys == old(groups).Keys && groups - {topic} == old(groups) - {topic}
      ensures topic in groups ==>
                groups[topic].members == old(groups)[topic].members - {membr} &&
                groups[topic].params == old(groups)[topic].params
    {
      done := RemoveOne(topic, membr);
      DeletedGroup(h, old(groups), topic, membr);
    }

    method RemoveOne(topic: string, membr: string) returns (done: Call<()>)
      requires Valid()
      modifies this
      ensures Valid() && groups == Apply(h, old(groups), Operation.DeleteMembr(topic, membr))
      ensures done.Panicked? <==> topic in old(groups) && old(groups)[topic].members.Keys <= {membr}
    {
      if topic !in groups {
        return Returned(());
      }
      ApplyValid(h, groups, Operation.DeleteMembr(topic, membr));
      var shrunk := groups[topic].(members := groups[topic].members - {membr});
      WithoutEmpty(groups[topic].members, membr);
      ShrunkDeleted(h, groups, topic, membr);
      groups := groups[topic := shrunk];
      done := Rehash(topic);
    }

    method DeleteTopic(topic: string)
      requires Valid()
      modifies this
      ensures Valid()
      ensures groups == Apply(h, old(groups), Operation.DeleteTopic(topic)) && groups == old(groups) - {topic}
    {
      groups := groups - {topic};
    }

    method SetParams(topic: string, gp: GroupParams) returns (ok: bool)
      requires Valid()
      modifies this
      ensures Valid()
      ensures groups == Apply(h, old(groups), Operation.SetParams(topic, gp))
      ensures ok <==> gp.mode == SingleQueue || gp.mode == MultipleQueue
      ensures !ok ==> groups == old(groups)
      ensures ok ==>
                groups - {topic} == old(groups) - {topic} && topic in groups && groups[topic].params == Some(gp) &&
                groups[topic].members == (if topic in old(groups) then old(groups)[topic].members else map[]) &&
                groups[topic].checksum == if topic in old(groups) then old(groups)[topic].checksum else ""
    {
      if !gp.mode.Valid() {
        return false;
      }
      ParamsGroup(groups, topic, gp);
      ParamsInTwo(groups, topic, gp);
      ApplyValid(h, groups, Operation.SetParams(topic, gp));
      if topic !in groups {
        groups := groups[topic := EMPTY];
      }
      groups := groups[topic := groups[topic].(params := Some(gp))];
      ok := true;
    }

    /** Lists the members in the order the map happens to be ranged over. */
    method Membrs(topic: string) returns (m: seq<Member>)
      requires topic in groups ==> Keyed(groups[topic].members)
      ensures topic !in groups ==> m == []
      ensures topic in groups ==> Lists(m, groups[topic].members)
    {
      m := [];
      if topic !in groups {
        return;
      }
      var members := groups[topic].members;
      var rest := members.Keys;
      while rest != {}
        invariant rest <= members.Keys
        invariant Lists(m, members - rest)
        decreases rest
      {
        var l :| l in rest;
        ListsExtend(m, members, rest, l);
        m := m + [members[l]];
        rest := rest - {l};
      }
      assert members - {} == members;
    }

    /** Finds the member with the label by ranging over the entries. */
    method Membr(topic: string, name: string) returns (found: Option<Member>)
      requires Valid()
      ensures found ==
              if topic in groups && name in groups[topic].members then Some(groups[topic].members[name]) else None
    {
      if topic !in groups {
        return None;
      }
      var members := groups[topic].members;
      var rest := members.Keys;
      while rest != {}
        invariant rest <= members.Keys
        invariant name in members ==> name in rest
        decreases rest
      {
        var l :| l in rest;
        if members[l].name == name {
          return Some(members[l]);
        }
        rest := rest - {l};
      }
      found := None;
    }
  }

  lemma ListsExtend(m: seq<Member>, members: map<string, Member>, rest: set<string>, l: string)
    requires Keyed(members) && rest <= members.Keys && l in rest
    requires Lists(m, members - rest)
    ensures Lists(m + [members[l]], members - (rest - {l}))
  {
    AppendLists(m, members - rest, members[l]);
    assert (members - rest)[l := members[l]] == members - (rest - {l});
  }
}
