/** The ZeroMQ topics of `pubsub/transport/zmq.go`: URNs in the form of section 2 of RFC 2141, prefix matching
    of subscription filters, and the framing of published messages. */
module Topics {
  import opened GoStrings
  import opened Models

  const SCHEME := "urn"
  const NID := "didcomm-queue"
  const PREFIX := SCHEME + ":" + NID + ":"

  function DataTopic(mode: GroupMode, topic: string, pub: string, sub: string): string {
    if mode == SingleQueue then PREFIX + topic + ":data"
    else PREFIX + topic + ":data:" + pub + ":" + sub
  }

  function StateTopic(topic: string): string {
    PREFIX + topic + ":state"
  }

  function GroupNameByDataTopic(topic: string): string {
    var parts := Split(topic, ':');
    if |parts| < 3 then "" else parts[2]
  }

  /** The published message: topic, a space, the payload. */
  function Frame(topic: string, data: string): string {
    topic + " " + data
  }

  /** A SUB socket receives a message once if one of its filters is a prefix of it. */
  predicate Matches(filter: string, frame: string) {
    filter <= frame
  }

  /** Names with a colon or a space would break the topics apart. */
  predicate Plain(name: string) {
    ':' !in name && ' ' !in name
  }

  lemma CancelLeft(prefix: string, x: string, y: string)
    requires prefix + x == prefix + y
    ensures x == y
  {
    assert (prefix + x)[|prefix|..] == (prefix + y)[|prefix|..];
  }

  /** All topics have the shape PREFIX, group, colon, rest. */
  lemma SameGroup(g: string, g': string, x: string, y: string)
    requires Plain(g) && Plain(g')
    ensures PREFIX + g + ":" + x == PREFIX + g' + ":" + y <==> g == g' && x == y
  {
    if PREFIX + g + ":" + x == PREFIX + g' + ":" + y {
      assert PREFIX + g + ":" + x == PREFIX + (g + [':'] + x);
      assert PREFIX + g' + ":" + y == PREFIX + (g' + [':'] + y);
      CancelLeft(PREFIX, g + [':'] + x, g' + [':'] + y);
      HeadUnique(g, g', ':', x, y);
    }
  }

  lemma SamePrefix(g: string, g': string, x: string, y: string)
    requires Plain(g) && Plain(g')
    ensures PREFIX + g + ":" + x <= PREFIX + g' + ":" + y <==> g == g' && x <= y
  {
    var s, t := PREFIX + g + ":" + x, PREFIX + g' + ":" + y;
    if s <= t {
      var rest := t[|s|..];
      assert t == s + rest;
      assert t == PREFIX + g + ":" + (x + rest);
      SameGroup(g, g', x + rest, y);
    }
    if g == g' && x <= y {
      assert y == x + y[|x|..];
      assert t == s + y[|x|..];
    }
  }

  lemma PublisherPrefix(p: string, p': string, x: string, y: string)
    requires Plain(p) && Plain(p')
    ensures "data:" + p + ":" + x <= "data:" + p' + ":" + y <==> p == p' && x <= y
  {
    var s, t := "data:" + p + ":" + x, "data:" + p' + ":" + y;
    if s <= t {
      var rest := t[|s|..];
      assert t == s + rest;
      assert t == "data:" + (p + [':'] + (x + rest));
      assert t == "data:" + (p' + [':'] + y);
      CancelLeft("data:", p + [':'] + (x + rest), p' + [':'] + y);
      HeadUnique(p, p', ':', x + rest, y);
    }
    if p == p' && x <= y {
      assert y == x + y[|x|..];
      assert t == s + y[|x|..];
    }
  }

  lemma LongPrefixHasSpace(s: string, s': string, data: string)
    ensures s <= s' + " " + data && |s| > |s'| ==> ' ' in s
  {
    var t := s' + " " + data;
    if s <= t && |s| > |s'| {
      assert s[|s'|] == t[|s'|];
    }
  }

  /** A space-free text is a prefix of a frame only if it is a prefix of the part before the space. */
  lemma PrefixBeforeSpace(s: string, s': string, data: string)
    requires ' ' !in s
    ensures s <= s' + " " + data <==> s <= s'
  {
    LongPrefixHasSpace(s, s', data);
    var t := s' + " " + data;
    if s <= t {
      assert s == t[..|s|] == s'[..|s|];
    }
  }

  lemma MultipleQueueShape(mode: GroupMode, g: string, p: string, s: string, data: string)
    requires mode != SingleQueue
    ensures DataTopic(mode, g, p, s) == PREFIX + g + ":" + ("data:" + p + ":" + s)
    ensures Frame(DataTopic(mode, g, p, s), data) == PREFIX + g + ":" + ("data:" + p + ":" + (s + " " + data))
  {
    assert ":data:" == ":" + "data:";
    Regroup(PREFIX + g, ":", "data:", p, s);
    Regroup(PREFIX + g, ":", "data:", p, s + " " + data);
    assert Frame(DataTopic(mode, g, p, s), data) == PREFIX + g + (":" + "data:") + p + ":" + (s + " " + data);
  }

  lemma Regroup(x: string, colon: string, data: string, p: string, s: string)
    ensures x + (colon + data) + p + colon + s == x + colon + (data + p + colon + s)
  {
  }

  /** In multiple-queue mode a filter matches exactly the frames of the same group and publisher whose
      subscriber extends the subscriber of the filter. */
  lemma MultipleQueueMatch(g: string, p: string, s: string, g': string, p': string, s': string, data: string,
                           mode: GroupMode)
    requires Plain(g) && Plain(p) && Plain(s) && Plain(g') && Plain(p') && Plain(s') && mode != SingleQueue
    ensures Matches(DataTopic(mode, g, p, s), Frame(DataTopic(mode, g', p', s'), data)) <==>
              g == g' && p == p' && s <= s'
  {
    MultipleQueueShape(mode, g, p, s, data);
    MultipleQueueShape(mode, g', p', s', data);
    SamePrefix(g, g', "data:" + p + ":" + s, "data:" + p' + ":" + (s' + " " + data));
    PublisherPrefix(p, p', s, s' + " " + data);
    PrefixBeforeSpace(s, s', data);
  }

  /** In single-queue mode a filter matches exactly the frames of the same group. */
  lemma SingleQueueMatch(g: string, p: string, s: string, g': string, p': string, s': string, data: string)
    requires Plain(g) && Plain(g')
    ensures Matches(DataTopic(SingleQueue, g, p, s), Frame(DataTopic(SingleQueue, g', p', s'), data)) <==> g == g'
  {
    assert DataTopic(SingleQueue, g, p, s) == PREFIX + g + ":" + "data";
    assert Frame(DataTopic(SingleQueue, g', p', s'), data) == PREFIX + g' + ":" + ("data " + data);
    SamePrefix(g, g', "data", "data " + data);
  }

  lemma FirstCharacter(a: string, b: string)
    requires a != "" && b != "" && a[0] != b[0]
    ensures !(a <= b)
  {
  }

  function DataTail(mode: GroupMode, p: string, s: string): (tail: string)
    ensures tail != "" && tail[0] == 'd'
  {
    if mode == SingleQueue then "data" else "data:" + p + ":" + s
  }

  lemma DataShape(mode: GroupMode, g: string, p: string, s: string)
    ensures DataTopic(mode, g, p, s) == PREFIX + g + ":" + DataTail(mode, p, s)
  {
  }

  lemma StateShape(g: string)
    ensures StateTopic(g) == PREFIX + g + ":" + "state"
  {
  }

  lemma DifferentKinds(g: string, g': string, x: string, y: string)
    requires Plain(g) && Plain(g') && x != "" && y != "" && x[0] != y[0]
    ensures forall data :: !Matches(PREFIX + g + ":" + x, Frame(PREFIX + g' + ":" + y, data))
  {
    forall data ensures !Matches(PREFIX + g + ":" + x, Frame(PREFIX + g' + ":" + y, data)) {
      var z := y + " " + data;
      assert Frame(PREFIX + g' + ":" + y, data) == PREFIX + g' + ":" + z;
      assert z[0] == y[0];
      FirstCharacter(x, z);
      SamePrefix(g, g', x, z);
    }
  }

  /** Data and state topics never match one another. */
  lemma DataAndStateDoNotMatch(mode: GroupMode, g: string, p: string, s: string, g': string, data: string)
    requires Plain(g) && Plain(g')
    ensures !Matches(DataTopic(mode, g, p, s), Frame(StateTopic(g'), data))
    ensures !Matches(StateTopic(g'), Frame(DataTopic(mode, g, p, s), data))
  {
    DataShape(mode, g, p, s);
    StateShape(g');
    DifferentKinds(g, g', DataTail(mode, p, s), "state");
    DifferentKinds(g', g, "state", DataTail(mode, p, s));
  }

  /** Internal topics match neither data nor state topics, in either direction. */
  lemma InternalDoesNotMatch(mode: GroupMode, g: string, p: string, s: string, data: string, t: string)
    requires t in ["internal-connect", "internal-subscribe", "internal-authenticate", "internal-terminate"]
    ensures !Matches(t, Frame(DataTopic(mode, g, p, s), data)) && !Matches(t, Frame(StateTopic(g), data))
    ensures !Matches(DataTopic(mode, g, p, s), Frame(t, data)) && !Matches(StateTopic(g), Frame(t, data))
  {
    assert t != "" && t[0] == 'i';
    assert PREFIX[0] == 'u';
    FirstCharacter(t, Frame(DataTopic(mode, g, p, s), data));
    FirstCharacter(t, Frame(StateTopic(g), data));
    FirstCharacter(DataTopic(mode, g, p, s), Frame(t, data));
    FirstCharacter(StateTopic(g), Frame(t, data));
  }

  /** The receiver recovers the topic and the payload by splitting at the first space. */
  lemma FrameRoundTrip(mode: GroupMode, g: string, p: string, s: string, data: string)
    requires Plain(g) && Plain(p) && Plain(s)
    ensures SplitFirst(Frame(DataTopic(mode, g, p, s), data), ' ') == [DataTopic(mode, g, p, s), data]
    ensures SplitFirst(Frame(StateTopic(g), data), ' ') == [StateTopic(g), data]
  {
    assert ' ' !in PREFIX && ' ' !in ":data:" && ' ' !in ":data" && ' ' !in ":state" && ' ' !in ":";
    assert Frame(DataTopic(mode, g, p, s), data) == DataTopic(mode, g, p, s) + [' '] + data;
    SplitAtSeparator(DataTopic(mode, g, p, s), ' ', data);
    assert Frame(StateTopic(g), data) == StateTopic(g) + [' '] + data;
    SplitAtSeparator(StateTopic(g), ' ', data);
  }

  lemma ThirdPart(t: string, a: string, b: string, c: string, tail: string)
    requires ':' !in a && ':' !in b && ':' !in c
    requires t == a + [':'] + (b + [':'] + (c + [':'] + tail))
    ensures GroupNameByDataTopic(t) == c
  {
    var v := c + [':'] + tail;
    var u := b + [':'] + v;
    SplitAtSeparator(a, ':', u);
    SplitAtSeparator(b, ':', v);
    SplitAtSeparator(c, ':', tail);
    assert Split(t, ':')[2] == Split(v, ':')[0];
  }

  lemma PrefixParts(x: string)
    ensures PREFIX + x == SCHEME + [':'] + (NID + [':'] + x)
  {
  }

  /** In both modes the group name is the third part of the topic. */
  lemma GroupNameRecovered(mode: GroupMode, g: string, p: string, s: string)
    requires ':' !in g
    ensures GroupNameByDataTopic(DataTopic(mode, g, p, s)) == g
  {
    var tail := DataTail(mode, p, s);
    var named := g + [':'] + tail;
    assert DataTopic(mode, g, p, s) == PREFIX + named;
    PrefixParts(named);
    GroupNameOfParts(PREFIX + named, g, tail);
  }

  lemma GroupNameOfParts(t: string, g: string, tail: string)
    requires ':' !in g && t == SCHEME + [':'] + (NID + [':'] + (g + [':'] + tail))
    ensures GroupNameByDataTopic(t) == g
  {
    assert ':' !in SCHEME && ':' !in NID;
    ThirdPart(t, SCHEME, NID, g, tail);
  }

  /** The texts of the topics. */
  lemma TopicTexts(topic: string, pub: string, sub: string, mode: GroupMode)
    ensures DataTopic(SingleQueue, topic, pub, sub) == "urn:didcomm-queue:" + topic + ":data"
    ensures mode != SingleQueue ==>
              DataTopic(mode, topic, pub, sub) == "urn:didcomm-queue:" + topic + ":data:" + pub + ":" + sub
    ensures StateTopic(topic) == "urn:didcomm-queue:" + topic + ":state"
  {
    assert PREFIX == "urn:didcomm-queue:";
  }

  /** A text with fewer than two colons names no group. */
  lemma FewColonsNoGroup(head: string, tail: string)
    requires ':' !in head && ':' !in tail
    ensures GroupNameByDataTopic(head) == "" && GroupNameByDataTopic(head + [':'] + tail) == ""
  {
    SplitWhole(head, ':');
    SplitWhole(tail, ':');
    SplitAtSeparator(head, ':', tail);
  }

  /** In multiple-queue mode different publishers have different topics for one subscriber. */
  lemma PublisherOfTopic(mode: GroupMode, topic: string, p: string, p': string, sub: string)
    requires Plain(topic) && Plain(p) && Plain(p') && mode != SingleQueue
    ensures DataTopic(mode, topic, p, sub) == DataTopic(mode, topic, p', sub) <==> p == p'
  {
    MultipleQueueShape(mode, topic, p, sub, "");
    MultipleQueueShape(mode, topic, p', sub, "");
    SameGroup(topic, topic, "data:" + p + ":" + sub, "data:" + p' + ":" + sub);
    PublisherPrefix(p, p', sub, sub);
  }
}
