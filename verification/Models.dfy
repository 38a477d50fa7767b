/** The records of `domain/models` that the group protocol exchanges. */
module Models {

  /** `name` is the field `Label`. */
  datatype Member = Member(
    active: bool,
    publisher: bool,
    name: string,
    inv: string,
    pubEndpoint: string)

  /** The mode is a string in the source; two values are valid. */
  datatype GroupMode = SingleQueue | MultipleQueue | Other(text: string) {
    predicate Valid() {
      !Other?
    }
  }

  datatype GroupParams = GroupParams(orderEnabled: bool, joinConsistent: bool, mode: GroupMode)

  function Labels(grp: seq<Member>): (labels: seq<string>) {
    seq(|grp|, i requires 0 <= i < |grp| => grp[i].name)
  }

  /** No two entries share a label. */
  ghost predicate UniqueLabels(grp: seq<Member>) {
    forall i, j :: 0 <= i < j < |grp| ==> grp[i].name != grp[j].name
  }

  /** A member map whose entries sit under their own labels. */
  ghost predicate Keyed(members: map<string, Member>) {
    forall l :: l in members ==> members[l].name == l
  }

  /** `grp` lists every entry of the map once, in some order: what ranging over a Go map yields. */
  ghost predicate Lists(grp: seq<Member>, members: map<string, Member>) {
    UniqueLabels(grp) &&
    (forall m :: m in grp ==> m.name in members && members[m.name] == m) &&
    (forall l :: l in members ==> members[l] in grp)
  }

  lemma AppendLists(grp: seq<Member>, members: map<string, Member>, m: Member)
    requires Lists(grp, members) && m.name !in members
    ensures Lists(grp + [m], members[m.name := m])
  {
    var all := grp + [m];
    assert forall x: Member :: x in all <==> x in grp || x == m;
    assert UniqueLabels(all) by {
      forall j | 0 <= j < |grp| ensures grp[j].name != m.name { assert grp[j] in grp; }
    }
  }
}
