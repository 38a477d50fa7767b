/** `pubsub/validator`: the canonical order of a member list, its checksum, and the majority check a joiner
    runs over the checksums of the group. */
module Validator {
  import opened GoStrings
  import opened Base64
  import opened Models
  import MemberJson

  /** SHA-256 is a parameter: any function from texts to 32 bytes. */
  type Digest = string -> seq<byte>

  ghost predicate IsDigest(h: Digest) {
    forall text :: |h(text)| == 32
  }

  /** The digest does not collide on these two texts. */
  ghost predicate NoCollision(h: Digest, a: string, b: string) {
    h(a) == h(b) ==> a == b
  }

  // ---------------------------------------------------------------------------------------- order

  predicate Named(grp: seq<Member>, name: string) {
    exists m :: m in grp && m.name == name
  }

  /** The first entry with the given label. */
  function First(grp: seq<Member>, name: string): (m: Member)
    requires Named(grp, name)
    ensures m.name == name && m in grp
  {
    if grp[0].name == name then grp[0] else First(grp[1..], name)
  }

  lemma LabelsAreNamed(grp: seq<Member>)
    ensures forall n :: n in Sort(Labels(grp)) <==> Named(grp, n)
  {
    var names := Labels(grp);
    forall n ensures n in Sort(names) <==> Named(grp, n) {
      assert n in Sort(names) <==> n in multiset(Sort(names));
      assert n in names <==> n in multiset(names);
      LabelIsNamed(grp, n);
    }
  }

  lemma LabelIsNamed(grp: seq<Member>, n: string)
    ensures n in Labels(grp) <==> Named(grp, n)
  {
    if Named(grp, n) {
      var i :| 0 <= i < |grp| && grp[i].name == n;
      assert Labels(grp)[i] == n;
    }
  }

  /** What `order` computes: for every label in ascending order, the first entry that carries it. */
  function Ordered(grp: seq<Member>): (sorted: seq<Member>)
    ensures |sorted| == |grp| == |Sort(Labels(grp))|
    ensures forall i :: 0 <= i < |grp| ==>
              Named(grp, Sort(Labels(grp))[i]) && sorted[i] == First(grp, Sort(Labels(grp))[i])
  {
    LabelsAreNamed(grp);
    var names := Sort(Labels(grp));
    seq(|names|, i requires 0 <= i < |names| => assert names[i] in names; First(grp, names[i]))
  }

  lemma {:induction false} FirstIndex(grp: seq<Member>, name: string) returns (j: nat)
    requires Named(grp, name)
    ensures j < |grp| && grp[j] == First(grp, name)
    ensures forall k :: 0 <= k < j ==> grp[k].name != name
  {
    if grp[0].name == name {
      j := 0;
    } else {
      var i := FirstIndex(grp[1..], name);
      j := i + 1;
    }
  }

  /** With unique labels, a permutation in which each label is a proper prefix of the later ones or has the smaller
      character where they first differ. */
  method Order(grp: seq<Member>) returns (sorted: seq<Member>)
    ensures sorted == Ordered(grp)
    ensures UniqueLabels(grp) ==> multiset(sorted) == multiset(grp)
    ensures UniqueLabels(grp) ==> forall i, j :: 0 <= i < j < |sorted| ==>
                var a, b := sorted[i].name, sorted[j].name;
                a != b && (a <= b || exists k: nat :: k < |a| && k < |b| && a[..k] == b[..k] && a[k] < b[k])
  {
    var names: seq<string> := [];
    for i := 0 to |grp|
      invariant |names| == i
      invariant forall k :: 0 <= k < i ==> names[k] == grp[k].name
    {
      names := names + [grp[i].name];
    }
    assert names == Labels(grp);

    ghost var result := Ordered(grp);
    names := Sort(names);
    sorted := [];
    for i := 0 to |names|
      invariant |sorted| == i
      invariant forall k :: 0 <= k < i ==> sorted[k] == result[k]
    {
      assert Named(grp, names[i]);
      var m := FirstNamed(grp, names[i]);
      sorted := sorted + [m];
    }
    assert sorted == result;
    OrderedIsSorted(grp);
  }

  /** The inner loop. */
  method FirstNamed(grp: seq<Member>, name: string) returns (m: Member)
    requires Named(grp, name)
    ensures m == First(grp, name)
  {
    ghost var target := FirstIndex(grp, name);
    var j := 0;
    while grp[j].name != name
      invariant 0 <= j <= target
      decreases target - j
    {
      j := j + 1;
    }
    m := grp[j];
  }

  lemma OrderedIsSorted(grp: seq<Member>)
    ensures UniqueLabels(grp) ==> multiset(Ordered(grp)) == multiset(grp)
    ensures UniqueLabels(grp) ==> forall i, j :: 0 <= i < j < |grp| ==>
                var a, b := Ordered(grp)[i].name, Ordered(grp)[j].name;
                a != b && (a <= b || exists k: nat :: k < |a| && k < |b| && a[..k] == b[..k] && a[k] < b[k])
  {
    if UniqueLabels(grp) {
      OrderedPermutation(grp);
    }
  }

  ghost predicate StrictlySorted(grp: seq<Member>) {
    forall i, j :: 0 <= i < j < |grp| ==> Less(grp[i].name, grp[j].name)
  }

  /** For any list, duplicates included: the length is kept, the labels are the sorted labels, and every
      entry is the first one in the list that carries its label. */
  lemma OrderedFirstOccurrences(grp: seq<Member>)
    ensures |Ordered(grp)| == |grp|
    ensures multiset(Labels(Ordered(grp))) == multiset(Labels(grp)) && Sorted(Labels(Ordered(grp)))
    ensures forall m :: m in Ordered(grp) ==>
              exists j :: 0 <= j < |grp| && grp[j] == m && forall k :: 0 <= k < j ==> grp[k].name != m.name
  {
    var names := Sort(Labels(grp));
    assert forall n :: n in names ==> n in multiset(names);
    assert Labels(Ordered(grp)) == names;
    forall m | m in Ordered(grp)
      ensures exists j :: 0 <= j < |grp| && grp[j] == m && forall k :: 0 <= k < j ==> grp[k].name != m.name
    {
      var i :| 0 <= i < |names| && Ordered(grp)[i] == m;
      var j := FirstIndex(grp, names[i]);
    }
  }

  lemma OrderedStrictly(grp: seq<Member>)
    requires UniqueLabels(grp)
    ensures StrictlySorted(Ordered(grp))
  {
    var names := Sort(Labels(grp));
    assert NoDuplicates(Labels(grp));
    NoDuplicatesCount(Labels(grp));
    NoDuplicatesCount(names);
    var sorted := Ordered(grp);
    forall i, j | 0 <= i < j < |sorted| ensures Less(sorted[i].name, sorted[j].name) {
      LessTotal(names[i], names[j]);
    }
  }

  lemma OrderedElements(grp: seq<Member>)
    requires UniqueLabels(grp)
    ensures forall m :: m in Ordered(grp) <==> m in grp
  {
    LabelsAreNamed(grp);
    var names := Sort(Labels(grp));
    forall m | m in grp ensures m in Ordered(grp) {
      assert Named(grp, m.name);
      var i :| 0 <= i < |names| && names[i] == m.name;
      assert Ordered(grp)[i].name == m.name && Ordered(grp)[i] in grp;
    }
  }

  /** With unique labels the result is the permutation of the list that is strictly sorted by label. */
  lemma OrderedPermutation(grp: seq<Member>)
    requires UniqueLabels(grp)
    ensures StrictlySorted(Ordered(grp))
    ensures multiset(Ordered(grp)) == multiset(grp)
    ensures forall m :: m in Ordered(grp) <==> m in grp
    ensures forall i, j :: 0 <= i < j < |grp| ==>
              var a, b := Ordered(grp)[i].name, Ordered(grp)[j].name;
              a != b && (a <= b || exists k: nat :: k < |a| && k < |b| && a[..k] == b[..k] && a[k] < b[k])
  {
    forall i, j | 0 <= i < j < |grp|
      ensures var a, b := Ordered(grp)[i].name, Ordered(grp)[j].name;
              a != b && (a <= b || exists k: nat :: k < |a| && k < |b| && a[..k] == b[..k] && a[k] < b[k])
    {
      OrderedStrictly(grp);
      LessIff(Ordered(grp)[i].name, Ordered(grp)[j].name);
    }
    OrderedStrictly(grp);
    OrderedElements(grp);
    var sorted := Ordered(grp);
    assert NoDuplicates(sorted) by {
      forall i, j | 0 <= i < j < |sorted| ensures sorted[i] != sorted[j] {
        LessAsymmetric(sorted[i].name, sorted[j].name);
      }
    }
    assert NoDuplicates(grp);
    SameElementsSameMultiset(sorted, grp);
  }

  lemma HeadNotInTail(a: seq<Member>)
    requires StrictlySorted(a) && a != []
    ensures forall m :: m in a[1..] <==> m in a && m != a[0]
  {
    LessAsymmetric(a[0].name, a[0].name);
    assert a == [a[0]] + a[1..];
  }

  /** A strictly sorted list is determined by its elements. */
  lemma {:induction false} StrictlySortedUnique(a: seq<Member>, b: seq<Member>)
    requires StrictlySorted(a) && StrictlySorted(b)
    requires forall m :: m in a <==> m in b
    ensures a == b
  {
    assert b != [] ==> b[0] in a;
    if a != [] {
      assert a[0] in b;
      if a[0] != b[0] {
        LessAsymmetric(a[0].name, b[0].name);
      }
      HeadNotInTail(a);
      HeadNotInTail(b);
      assert a[0] == b[0];
      StrictlySortedUnique(a[1..], b[1..]);
      assert a == [a[0]] + a[1..] && b == [b[0]] + b[1..];
    }
  }

  /** Two lists of the same members, in any order, are put in the same order. */
  lemma OrderedCanonical(a: seq<Member>, b: seq<Member>)
    requires UniqueLabels(a) && UniqueLabels(b)
    requires forall m :: m in a <==> m in b
    ensures Ordered(a) == Ordered(b)
  {
    OrderedPermutation(a);
    OrderedPermutation(b);
    StrictlySortedUnique(Ordered(a), Ordered(b));
  }

  // ------------------------------------------------------------------------------------- checksum

  /** The checksum of a list: the encoded digest of the ordered list's JSON text. */
  function Checksum(h: Digest, grp: seq<Member>): string {
    Encode(h(MemberJson.Encode(Ordered(grp))))
  }

  /** The output buffer is as long as the JSON text.  That is enough exactly for a non-empty group; for an
      empty one the text is `null` and the encoder runs past the buffer. */
  method Calculate(h: Digest, grp: seq<Member>) returns (val: Call<string>)
    requires IsDigest(h)
    ensures val == if grp == [] then Panicked else Returned(Checksum(h, grp))
    ensures grp != [] ==> val == Returned(Encode(h(MemberJson.Encode(Ordered(grp)))))
  {
    var ordered := Order(grp);
    var byts := MemberJson.Encode(ordered);
    OrderedFirstOccurrences(grp);
    MemberJson.EncodeLength(ordered);
    val := EncodeTrimmed(|byts|, h(byts));
  }

  ghost predicate NoListCollision(h: Digest, a: seq<Member>, b: seq<Member>) {
    NoCollision(h, MemberJson.Encode(Ordered(a)), MemberJson.Encode(Ordered(b)))
  }

  /** Without a digest collision, equal checksums mean equal ordered lists. */
  lemma ChecksumInjective(h: Digest, a: seq<Member>, b: seq<Member>)
    requires NoListCollision(h, a, b) && Checksum(h, a) == Checksum(h, b)
    ensures Ordered(a) == Ordered(b)
  {
    RoundTrip(h(MemberJson.Encode(Ordered(a))));
    RoundTrip(h(MemberJson.Encode(Ordered(b))));
    MemberJson.EncodeInjective(Ordered(a), Ordered(b));
  }

  lemma {:induction false} ListingExists(members: map<string, Member>)
    requires Keyed(members)
    ensures exists grp :: Lists(grp, members)
    decreases |members|
  {
    if members == map[] {
      assert Lists([], members);
    } else {
      var l :| l in members;
      ListingExists(members - {l});
      var grp: seq<Member> :| Lists(grp, members - {l});
      AppendLists(grp, members - {l}, members[l]);
      assert (members - {l})[l := members[l]] == members;
    }
  }

  lemma {:induction false} ListLength(list: seq<Member>, view: map<string, Member>)
    requires Keyed(view) && Lists(list, view)
    ensures |list| == |view|
  {
    var names := Labels(list);
    forall l ensures l in names <==> l in view.Keys {
      if l in view {
        assert view[l] in list;
        var i :| 0 <= i < |list| && list[i] == view[l];
        assert names[i] == l;
      }
      if l in names {
        var i :| 0 <= i < |names| && names[i] == l;
        assert list[i] in list;
      }
    }
    NoDuplicatesLength(names, view.Keys);
  }

  /** Some enumeration of a member map. */
  ghost function Listing(members: map<string, Member>): (grp: seq<Member>)
    requires Keyed(members)
    ensures Lists(grp, members)
  {
    ListingExists(members);
    var grp :| Lists(grp, members);
    grp
  }

  /** The checksum of a member map. */
  ghost function ViewChecksum(h: Digest, members: map<string, Member>): string
    requires Keyed(members)
  {
    Checksum(h, Listing(members))
  }

  /** Whatever order the map is ranged over, the checksum is the same. */
  lemma ChecksumOfAnyListing(h: Digest, grp: seq<Member>, members: map<string, Member>)
    requires Keyed(members) && Lists(grp, members)
    ensures Checksum(h, grp) == ViewChecksum(h, members)
    ensures Ordered(grp) == Ordered(Listing(members))
  {
    var other := Listing(members);
    forall m ensures m in grp <==> m in other {
      if m in grp { assert members[m.name] in other; }
      if m in other { assert members[m.name] in grp; }
    }
    OrderedCanonical(grp, other);
  }

  ghost predicate NoViewCollision(h: Digest, a: map<string, Member>, b: map<string, Member>)
    requires Keyed(a) && Keyed(b)
  {
    NoListCollision(h, Listing(a), Listing(b))
  }

  lemma SameElementsSameMap(x: seq<Member>, a: map<string, Member>, y: seq<Member>, b: map<string, Member>)
    requires Keyed(a) && Keyed(b) && Lists(x, a) && Lists(y, b)
    requires forall m :: m in x <==> m in y
    ensures a == b
  {
    forall l ensures l in a <==> l in b
      ensures l in a && l in b ==> a[l] == b[l]
    {
      if l in a { assert a[l] in y; }
      if l in b { assert b[l] in x; }
    }
  }

  /** Without a digest collision, equal checksums mean equal views. */
  lemma EqualChecksumsEqualViews(h: Digest, a: map<string, Member>, b: map<string, Member>)
    requires Keyed(a) && Keyed(b) && NoViewCollision(h, a, b)
    ensures ViewChecksum(h, a) == ViewChecksum(h, b) <==> a == b
  {
    if ViewChecksum(h, a) == ViewChecksum(h, b) {
      var x, y := Listing(a), Listing(b);
      ChecksumInjective(h, x, y);
      OrderedElements(x);
      OrderedElements(y);
      SameElementsSameMap(x, a, y, b);
    }
  }

  // --------------------------------------------------------------------------------------- verify

  /** The members that reported the hash `val`. */
  function Class(states: map<string, string>, val: string): set<string> {
    set membr | membr in states && states[membr] == val
  }

  ghost predicate AllEqual(states: map<string, string>) {
    forall a, b :: a in states && b in states ==> states[a] == states[b]
  }

  /** `membrs` is one whole class of the partition by hash, and no class is smaller. */
  ghost predicate SmallestClass(states: map<string, string>, membrs: seq<string>) {
    (exists val :: val in states.Values && Enumerates(membrs, Class(states, val))) &&
    (forall val :: val in states.Values ==> |membrs| <= |Class(states, val)|)
  }

  /** Both maps are ranged over in an arbitrary order, so the contract holds for every iteration order. */
  method Verify(states: map<string, string>) returns (invalidMems: seq<string>, ok: bool)
    ensures ok <==> AllEqual(states)
    ensures ok <==> forall a, b :: a in states && b in states ==> states[a] == states[b]
    ensures ok ==> invalidMems == []
    ensures !ok ==> SmallestClass(states, invalidMems)
    ensures !ok ==> exists a :: a in states && forall b :: b in invalidMems <==> b in states && states[b] == states[a]
    ensures !ok ==> forall a :: a in states ==> |invalidMems| <= |set b | b in states && states[b] == states[a]|
  {
    var mems := InverseMap(states);
    var deviated := |states|;
    invalidMems := [];
    var vals := mems.Keys;
    while vals != {}
      invariant vals <= mems.Keys
      invariant deviated <= |states|
      invariant deviated == |states| ==> invalidMems == []
      invariant deviated < |states| ==>
                  exists val :: val in mems && invalidMems == mems[val] && deviated == |invalidMems|
      invariant forall val :: val in mems && val !in vals ==> deviated <= |mems[val]|
      decreases vals
    {
      var val :| val in vals;
      if |mems[val]| < deviated {
        deviated := |mems[val]|;
        invalidMems := mems[val];
      }
      vals := vals - {val};
    }
    ClassSizes(states, mems);
    if deviated == |states| {
      return [], true;
    }
    ok := false;
    SmallestClassIs(states, invalidMems);
  }

  lemma SmallestClassIs(states: map<string, string>, membrs: seq<string>)
    requires SmallestClass(states, membrs)
    ensures exists a :: a in states && forall b :: b in membrs <==> b in states && states[b] == states[a]
    ensures forall a :: a in states ==> |membrs| <= |set b | b in states && states[b] == states[a]|
  {
    var val :| val in states.Values && Enumerates(membrs, Class(states, val));
    var a :| a in states && states[a] == val;
    assert forall b :: b in membrs <==> b in states && states[b] == states[a];
    forall a | a in states ensures |membrs| <= |set b | b in states && states[b] == states[a]| {
      assert (set b | b in states && states[b] == states[a]) == Class(states, states[a]);
    }
  }

  /** The inverse map: hash to the members that reported it. */
  method InverseMap(states: map<string, string>) returns (mems: map<string, seq<string>>)
    ensures mems.Keys == states.Values
    ensures forall val :: val in mems ==> Enumerates(mems[val], Class(states, val))
  {
    mems := map[];
    var rest := states.Keys;
    ghost var done: set<string> := {};
    while rest != {}
      invariant rest + done == states.Keys && rest !! done
      invariant forall val :: val in mems <==> exists m :: m in done && states[m] == val
      invariant forall val :: val in mems ==> Enumerates(mems[val], Class(states, val) * done)
      decreases rest
    {
      var membr :| membr in rest;
      var val := states[membr];
      if val !in mems {
        assert Class(states, val) * done == {};
        mems := mems[val := []];
      }
      ghost var before := mems;
      mems := mems[val := mems[val] + [membr]];
      forall v | v in mems ensures Enumerates(mems[v], Class(states, v) * (done + {membr})) {
        if v == val {
          assert Class(states, v) * (done + {membr}) == Class(states, v) * done + {membr};
          assert membr !in before[v];
        } else {
          assert Class(states, v) * (done + {membr}) == Class(states, v) * done;
        }
      }
      rest, done := rest - {membr}, done + {membr};
    }
    assert forall val :: Class(states, val) * done == Class(states, val);
    assert forall val :: val in mems ==> Enumerates(mems[val], Class(states, val));
  }

  /** The classes have the sizes of their lists, and one of them is a proper part of the members unless all hashes
      agree. */
  lemma ClassSizes(states: map<string, string>, mems: map<string, seq<string>>)
    requires mems.Keys == states.Values
    requires forall val :: val in mems ==> Enumerates(mems[val], Class(states, val))
    ensures forall val :: val in mems ==> |mems[val]| == |Class(states, val)|
    ensures AllEqual(states) ==> forall val :: val in mems ==> |mems[val]| == |states|
    ensures !AllEqual(states) ==> exists val :: val in mems && |mems[val]| < |states|
  {
    forall val | val in mems ensures |mems[val]| == |Class(states, val)| {
      NoDuplicatesLength(mems[val], Class(states, val));
    }
    if AllEqual(states) {
      forall val | val in mems ensures |mems[val]| == |states| {
        assert Class(states, val) == states.Keys;
      }
    } else {
      var a, b :| a in states && b in states && states[a] != states[b];
      assert states[a] in mems;
      TwoClassesFit(states, states[a], states[b]);
      assert b in Class(states, states[b]);
    }
  }

  lemma TwoClassesFit(states: map<string, string>, x: string, y: string)
    requires x != y
    ensures |Class(states, x)| + |Class(states, y)| <= |states|
  {
    var both := Class(states, x) + Class(states, y);
    assert Class(states, x) !! Class(states, y);
    SubsetSize(both, states.Keys);
  }

  lemma SubsetSize<T>(a: set<T>, b: set<T>)
    requires a <= b
    ensures |a| <= |b|
  {
    assert b == a + (b - a);
  }

  /** When the hashes differ, at most half of the members are reported, and none of them holds a hash that
      a strict majority holds. */
  lemma ReportedAreAMinority(states: map<string, string>, membrs: seq<string>)
    requires !AllEqual(states) && SmallestClass(states, membrs)
    ensures 0 < |membrs| && 2 * |membrs| <= |states|
    ensures forall m :: m in membrs ==> m in states && 2 * |Class(states, states[m])| <= |states|
  {
    var a, b :| a in states && b in states && states[a] != states[b];
    var val :| val in states.Values && Enumerates(membrs, Class(states, val));
    NoDuplicatesLength(membrs, Class(states, val));
    var holder :| holder in states && states[holder] == val;
    assert holder in Class(states, val);
    var other := if states[a] == val then states[b] else states[a];
    TwoClassesFit(states, val, other);
  }

  /** With exactly two hashes held by different numbers of members, the report is the complement of the majority. */
  lemma TwoHashesReportMinority(states: map<string, string>, membrs: seq<string>, x: string, y: string)
    requires states.Values == {x, y} && |Class(states, x)| < |Class(states, y)|
    requires SmallestClass(states, membrs)
    ensures forall m :: m in membrs <==> m in states.Keys - Class(states, y)
  {
    var val :| val in states.Values && Enumerates(membrs, Class(states, val));
    NoDuplicatesLength(membrs, Class(states, val));
    assert x in states.Values;
    assert val == x;
    forall m ensures m in Class(states, x) <==> m in states.Keys - Class(states, y) {
      if m in states { assert states[m] in states.Values; }
    }
  }

  /** The report names everybody who deviates from a strict majority exactly when the deviating members agree on
      one other hash. */
  lemma MajorityDeviatorsIff(states: map<string, string>, membrs: seq<string>, y: string)
    requires 2 * |Class(states, y)| > |states|
    requires !AllEqual(states) && SmallestClass(states, membrs)
    ensures (forall m :: m in membrs <==> m in states.Keys - Class(states, y)) <==>
            exists v :: v != y && states.Values == {y, v}
  {
    var val :| val in states.Values && Enumerates(membrs, Class(states, val));
    MajorityIsNotReported(states, membrs, y, val);
    if forall m :: m in membrs <==> m in states.Keys - Class(states, y) {
      forall v ensures v in states.Values <==> v in {y, val} {
        if l :| l in states && states[l] == v {
          assert l in Class(states, y) || l in membrs;
        }
      }
      assert states.Values == {y, val};
    }
    if v :| v != y && states.Values == {y, v} {
      assert val == v;
      forall m ensures m in Class(states, v) <==> m in states.Keys - Class(states, y) {
        if m in states { assert states[m] in states.Values; }
      }
    }
  }

  /** The majority's hash occurs, and the reported class is another one. */
  lemma MajorityIsNotReported(states: map<string, string>, membrs: seq<string>, y: string, val: string)
    requires 2 * |Class(states, y)| > |states|
    requires !AllEqual(states) && SmallestClass(states, membrs)
    requires val in states.Values && Enumerates(membrs, Class(states, val))
    ensures val != y && y in states.Values
  {
    ReportedAreAMinority(states, membrs);
    NoDuplicatesLength(membrs, Class(states, val));
    var l :| l in Class(states, y);
  }

  /** Three of five members agree and two deviate in different ways: only one of the two is reported. */
  lemma DeviatorsMayBeSplit(a: string, b: string, c: string, d: string, e: string, x: string, y: string, z: string)
    requires NoDuplicates([a, b, c, d, e]) && NoDuplicates([x, y, z])
    ensures var states := map[a := x, b := x, c := x, d := y, e := z];
            2 * |Class(states, x)| > |states| && !AllEqual(states) &&
            SmallestClass(states, [d]) && SmallestClass(states, [e]) && states.Keys - Class(states, x) == {d, e}
  {
    var states := map[a := x, b := x, c := x, d := y, e := z];
    var five, three := [a, b, c, d, e], [x, y, z];
    assert five[0] != five[1] && five[0] != five[2] && five[0] != five[3] && five[0] != five[4] && five[1] != five[2];
    assert five[1] != five[3] && five[1] != five[4] && five[2] != five[3] && five[2] != five[4] && five[3] != five[4];
    assert three[0] != three[1] && three[0] != three[2] && three[1] != three[2];
    assert Class(states, x) == {a, b, c} && Class(states, y) == {d} && Class(states, z) == {e};
    assert states.Keys == {a, b, c, d, e};
    assert states[a] == x && states[d] == y && states[e] == z;
    assert states.Values == {x, y, z};
    assert Enumerates([d], Class(states, y)) && Enumerates([e], Class(states, z));
  }

  // ------------------------------------------------------------------------------------ valid join

  /** `ValidJoin` writes the checksum of the received list under the acceptor's label and then compares all. */
  method ValidJoin(h: Digest, accptr: string, joinedSet: seq<Member>, grpHashes: map<string, string>)
    returns (valid: Call<bool>, updated: map<string, string>)
    requires IsDigest(h)
    ensures joinedSet == [] ==> valid == Panicked && updated == grpHashes
    ensures joinedSet != [] ==>
              updated == grpHashes[accptr := Checksum(h, joinedSet)] && valid == Returned(AllEqual(updated))
  {
    updated := grpHashes;
    var joinedChecksm := Calculate(h, joinedSet);
    if joinedChecksm.Panicked? {
      return Panicked, updated;
    }
    updated := updated[accptr := joinedChecksm.value];
    var invalidMems, ok := Verify(updated);
    valid := Returned(ok);
  }
}
