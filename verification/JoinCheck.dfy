/** The joiner's check of the acceptor's list against the checksums of the answering members
    (`pubsub/agent.go`, `Join`). */
module JoinCheck {
  import opened Base64
  import opened Models
  import opened Validator

  /** Every listed active member other than the acceptor answered with the checksum of the list; a list of
      one member is not checked. */
  ghost predicate Consistent(h: Digest, acceptor: string, list: seq<Member>, answers: map<string, string>) {
    |list| > 1 ==>
      forall m :: m in list && m.active && m.name != acceptor ==>
        m.name in answers && answers[m.name] == Checksum(h, list)
  }

  /** A member that did not answer counts as the empty checksum. */
  function Answer(answers: map<string, string>, l: string): string {
    if l in answers then answers[l] else ""
  }

  ghost predicate HashesOf(hashMap: map<string, string>, list: seq<Member>, answers: map<string, string>) {
    (forall m :: m in list && m.active ==> m.name in hashMap) &&
    (forall l :: l in hashMap ==> hashMap[l] == Answer(answers, l) && exists m :: m in list && m.active && m.name == l)
  }

  method BuildHashes(list: seq<Member>, answers: map<string, string>) returns (hashMap: map<string, string>)
    ensures HashesOf(hashMap, list, answers)
  {
    hashMap := map[];
    for i := 0 to |list|
      invariant HashesOf(hashMap, list[..i], answers)
    {
      assert list[..i + 1] == list[..i] + [list[i]];
      if list[i].active {
        hashMap := hashMap[list[i].name := Answer(answers, list[i].name)];
      }
    }
    assert list[..|list|] == list;
  }

  lemma HashesAgree(h: Digest, acceptor: string, list: seq<Member>, answers: map<string, string>,
                    hashMap: map<string, string>)
    requires IsDigest(h) && |list| > 1 && HashesOf(hashMap, list, answers)
    ensures AllEqual(hashMap[acceptor := Checksum(h, list)]) <==> Consistent(h, acceptor, list, answers)
  {
    var sum := Checksum(h, list);
    var states := hashMap[acceptor := sum];
    EncodeIsPlain(h(MemberJson.Encode(Ordered(list))));
    assert sum != "";
    if AllEqual(states) {
      forall m | m in list && m.active && m.name != acceptor ensures m.name in answers && answers[m.name] == sum {
        assert m.name in hashMap && m.name in states && acceptor in states;
      }
    }
    if Consistent(h, acceptor, list, answers) {
      assert forall l :: l in states ==> states[l] == sum;
    }
  }

  /** The method proceeds unless the check fails under `JoinConsistent`. */
  method CheckJoin(h: Digest, acceptor: string, list: seq<Member>, answers: map<string, string>, joinConsistent: bool)
    returns (proceed: bool, valid: bool)
    requires IsDigest(h)
    ensures valid <==> Consistent(h, acceptor, list, answers)
    ensures proceed <==> valid || !joinConsistent
  {
    var hashMap := BuildHashes(list, answers);
    valid := true;
    if |list| > 1 {
      HashesAgree(h, acceptor, list, answers, hashMap);
      var checked, updated := ValidJoin(h, acceptor, list, hashMap);
      valid := checked.value;
    }
    proceed := valid || !joinConsistent;
  }

  /** Virtual synchrony at join: if the check passes for the acceptor's member map, then every other active
      member answered, and the map it held when it answered was exactly the acceptor's.  `views` gives the
      member map each answering member held. */
  lemma AnswersHoldTheSameView(h: Digest, acceptor: string, list: seq<Member>, view: map<string, Member>,
                               answers: map<string, string>, views: map<string, map<string, Member>>, l: string)
    requires Keyed(view) && Lists(list, view) && |view| > 1
    requires answers.Keys == views.Keys
    requires forall x :: x in views ==> Keyed(views[x]) && answers[x] == ViewChecksum(h, views[x])
    requires forall x :: x in views ==> NoViewCollision(h, views[x], view)
    requires l in view && view[l].active && l != acceptor
    requires Consistent(h, acceptor, list, answers)
    ensures l in views && views[l] == view
  {
    ListLength(list, view);
    assert view[l] in list;
    ChecksumOfAnyListing(h, list, view);
    EqualChecksumsEqualViews(h, views[l], view);
  }

  /** Equal views pass the check, whatever the digest. */
  lemma EqualViewsAreConsistent(h: Digest, acceptor: string, list: seq<Member>, view: map<string, Member>,
                                answers: map<string, string>, views: map<string, map<string, Member>>)
    requires Keyed(view) && Lists(list, view)
    requires answers.Keys == views.Keys
    requires forall x :: x in views ==> Keyed(views[x]) && answers[x] == ViewChecksum(h, views[x])
    requires forall l :: l in view && view[l].active && l != acceptor ==> l in views && views[l] == view
    ensures Consistent(h, acceptor, list, answers)
  {
    ChecksumOfAnyListing(h, list, view);
    forall m | m in list && m.active && m.name != acceptor ensures m.name in answers &&
      answers[m.name] == Checksum(h, list) {
      assert view[m.name] == m;
    }
  }
}
