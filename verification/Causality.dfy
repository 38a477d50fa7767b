/** Runs of the clocks of one ordered topic within one membership epoch: every agent initialises its clock once,
    then sends and receives in any interleaving, with any clock readings, forward or backward. */
module Causality {
  import opened Syncer

  type AgentId = string

  /** `Receive(a, from)`: `a` processes the message of the send event number `from`. */
  datatype Event =
    | Init(a: AgentId, id: int, now: int64)
    | Send(a: AgentId, now: int64)
    | Receive(a: AgentId, from: nat)

  type Clocks = map<AgentId, Ts>

  /** The stored timestamps after the first `k` events. */
  function ClocksAt(run: seq<Event>, k: nat): Clocks
    requires k <= |run|
    decreases k
  {
    if k == 0 then map[]
    else
      var c := ClocksAt(run, k - 1);
      match run[k - 1]
      case Init(a, id, now) => c[a := Ts(id, now)]
      case Send(a, now) => if a in c then c[a := Advance(c[a], now)] else c
      case Receive(a, from) =>
        if a in c && from < k - 1 && run[from].Send? && run[from].a in ClocksAt(run, from + 1)
        then c[a := Merge(c[a], ClocksAt(run, from + 1)[run[from].a])] else c
  }

  /** The clock of the event's agent right after the event; for a send, the timestamp of its message. */
  function Stamp(run: seq<Event>, k: nat): Ts
    requires k < |run| && run[k].a in ClocksAt(run, k + 1)
  {
    ClocksAt(run, k + 1)[run[k].a]
  }

  /** Clocks are initialised once and before use; only sent messages are received. */
  ghost predicate Valid(run: seq<Event>) {
    forall k :: 0 <= k < |run| ==> ValidAt(run, k)
  }

  ghost predicate ValidAt(run: seq<Event>, k: nat)
    requires k < |run|
  {
    (run[k].a in ClocksAt(run, k) <==> !run[k].Init?) &&
    (run[k].Receive? ==> run[k].from < k && run[run[k].from].Send?)
  }

  predicate Reads(e: Event) {
    !e.Receive?
  }

  /** The send takes the `+ 1` branch. */
  predicate Bumps(run: seq<Event>, k: nat)
    requires k < |run|
  {
    run[k].Send? && run[k].a in ClocksAt(run, k) && run[k].now < ClocksAt(run, k)[run[k].a].lampTs
  }

  function BumpCount(run: seq<Event>, k: nat): nat
    requires k <= |run|
  {
    if k == 0 then 0 else BumpCount(run, k - 1) + if Bumps(run, k - 1) then 1 else 0
  }

  /** The largest clock reading among the first `k` events. */
  function MaxReading(run: seq<Event>, k: nat): (m: int)
    requires k <= |run|
    ensures forall i :: 0 <= i < k && Reads(run[i]) ==> run[i].now <= m
  {
    if k == 0 then MIN_INT64
    else
      var m := MaxReading(run, k - 1);
      if Reads(run[k - 1]) && run[k - 1].now > m then run[k - 1].now else m
  }

  lemma {:induction false} ClocksOfPrefix(run: seq<Event>, e: Event, k: nat)
    requires k <= |run|
    ensures ClocksAt(run + [e], k) == ClocksAt(run, k)
    decreases k
  {
    if k > 0 {
      ClocksOfPrefix(run, e, k - 1);
      assert (run + [e])[k - 1] == run[k - 1];
      var m := run[k - 1];
      if m.Receive? && m.from < k - 1 {
        ClocksOfPrefix(run, e, m.from + 1);
        assert (run + [e])[m.from] == run[m.from];
      }
    }
  }

  /** A valid run goes on with any agent's first reading, and with any sends and receipts of agents that have a
      clock. */
  lemma RunGoesOn(run: seq<Event>, e: Event)
    requires Valid(run)
    requires e.Init? <==> e.a !in ClocksAt(run, |run|)
    requires e.Receive? ==> e.from < |run| && run[e.from].Send?
    ensures Valid(run + [e])
  {
    forall k | 0 <= k < |run + [e]| ensures ValidAt(run + [e], k) {
      ClocksOfPrefix(run, e, k);
      if k < |run| {
        assert ValidAt(run, k);
        assert (run + [e])[k] == run[k];
        if run[k].Receive? {
          assert (run + [e])[run[k].from] == run[run[k].from];
        }
      } else if e.Receive? {
        assert (run + [e])[e.from] == run[e.from];
      }
    }
  }

  lemma {:induction false} CountsGrow(run: seq<Event>, i: nat, k: nat)
    requires i <= k <= |run|
    ensures MaxReading(run, i) <= MaxReading(run, k)
    ensures BumpCount(run, i) <= BumpCount(run, k) <= BumpCount(run, i) + (k - i)
    decreases k
  {
    if i < k {
      CountsGrow(run, i, k - 1);
    }
  }

  lemma {:induction false} StoredDrift(run: seq<Event>, k: nat, a: AgentId)
    requires Valid(run) && k <= |run| && a in ClocksAt(run, k)
    ensures ClocksAt(run, k)[a].lampTs <= MaxReading(run, k) + BumpCount(run, k)
    decreases k
  {
    if k > 0 {
      var e := run[k - 1];
      assert ValidAt(run, k - 1);
      CountsGrow(run, k - 1, k);
      if a in ClocksAt(run, k - 1) {
        StoredDrift(run, k - 1, a);
      }
      if e.Receive? && run[e.from].a in ClocksAt(run, e.from + 1) {
        StoredDrift(run, e.from + 1, run[e.from].a);
        CountsGrow(run, e.from + 1, k);
      }
    }
  }

  /** Clock drift: every timestamp stored or in flight is at most the largest reading taken so far plus the
      number of sends that took the `+ 1` branch. */
  lemma DriftBound(run: seq<Event>, k: nat)
    requires Valid(run) && k <= |run|
    ensures forall a :: a in ClocksAt(run, k) ==> ClocksAt(run, k)[a].lampTs <= MaxReading(run, k) + BumpCount(run, k)
    ensures forall j :: 0 <= j < k && run[j].Send? ==>
              run[j].a in ClocksAt(run, j + 1) && Stamp(run, j).lampTs <= MaxReading(run, k) + BumpCount(run, k)
  {
    forall a | a in ClocksAt(run, k)
      ensures ClocksAt(run, k)[a].lampTs <= MaxReading(run, k) + BumpCount(run, k)
    {
      StoredDrift(run, k, a);
    }
    forall j | 0 <= j < k && run[j].Send?
      ensures run[j].a in ClocksAt(run, j + 1) && Stamp(run, j).lampTs <= MaxReading(run, k) + BumpCount(run, k)
    {
      InFlightDrift(run, k, j);
    }
  }

  lemma InFlightDrift(run: seq<Event>, k: nat, j: nat)
    requires Valid(run) && j < k <= |run|
    ensures run[j].a in ClocksAt(run, j + 1) && Stamp(run, j).lampTs <= MaxReading(run, k) + BumpCount(run, k)
  {
    StampExists(run, j);
    StoredDrift(run, j + 1, run[j].a);
    CountsGrow(run, j + 1, k);
  }

  // ----------------------------------------------------------------------------------- wrap-around

  /** The send increments a clock that holds the largest `int64`. */
  predicate Wraps(run: seq<Event>, k: nat)
    requires k < |run|
  {
    Bumps(run, k) && ClocksAt(run, k)[run[k].a].lampTs == MAX_INT64
  }

  predicate NoWraps(run: seq<Event>) {
    forall k :: 0 <= k < |run| ==> !Wraps(run, k)
  }

  /** The readings leave room for one increment per event below the largest `int64`. */
  predicate Headroom(run: seq<Event>) {
    MIN_INT64 + |run| <= MAX_INT64 &&
    forall i :: 0 <= i < |run| && Reads(run[i]) ==> run[i].now + |run| <= MAX_INT64
  }

  lemma {:induction false} MaxReadingLeavesRoom(run: seq<Event>, k: nat)
    requires Headroom(run) && k <= |run|
    ensures MaxReading(run, k) + |run| <= MAX_INT64
  {
    if k > 0 {
      MaxReadingLeavesRoom(run, k - 1);
    }
  }

  /** A caller whose readings leave headroom never sees an increment wrap around. */
  lemma HeadroomPreventsWraps(run: seq<Event>)
    requires Valid(run) && Headroom(run)
    ensures NoWraps(run)
  {
    forall k | 0 <= k < |run| ensures !Wraps(run, k) {
      if Bumps(run, k) {
        StoredDrift(run, k, run[k].a);
        CountsGrow(run, 0, k);
        MaxReadingLeavesRoom(run, k);
      }
    }
  }

  lemma EventKeepsClocks(run: seq<Event>, k: nat, a: AgentId)
    requires Valid(run) && NoWraps(run) && k < |run| && a in ClocksAt(run, k)
    ensures a in ClocksAt(run, k + 1)
    ensures ClocksAt(run, k)[a].lampTs <= ClocksAt(run, k + 1)[a].lampTs
  {
    assert ValidAt(run, k);
    assert !Wraps(run, k);
  }

  /** An agent's clock never goes back. */
  lemma {:induction false} ClocksAreMonotone(run: seq<Event>, i: nat, k: nat, a: AgentId)
    requires Valid(run) && NoWraps(run) && i <= k <= |run| && a in ClocksAt(run, i)
    ensures a in ClocksAt(run, k)
    ensures ClocksAt(run, i)[a].lampTs <= ClocksAt(run, k)[a].lampTs
    decreases k
  {
    if i < k {
      ClocksAreMonotone(run, i, k - 1, a);
      EventKeepsClocks(run, k - 1, a);
    }
  }

  lemma StampExists(run: seq<Event>, k: nat)
    requires Valid(run) && k < |run|
    ensures run[k].a in ClocksAt(run, k + 1)
  {
    assert ValidAt(run, k);
  }

  /** One event directly precedes another: program order, or a send and its receipt. */
  ghost predicate Precedes(run: seq<Event>, i: nat, j: nat) {
    i < j < |run| && (run[i].a == run[j].a || (run[j].Receive? && run[j].from == i))
  }

  /** The edges of happens-before: two events of one agent, and a send with each of its receipts. */
  lemma Edges(run: seq<Event>, i: nat, j: nat)
    requires i < j < |run|
    ensures run[i].a == run[j].a ==> HappensBefore(run, [i, j])
    ensures run[j].Receive? && run[j].from == i ==> HappensBefore(run, [i, j])
    ensures HappensBefore(run, [i, j]) && run[i].a != run[j].a ==> run[j].Receive? && run[j].from == i
  {
    var path := [i, j];
    assert path[0] == i && path[1] == j;
    assert HappensBefore(run, path) ==> Precedes(run, path[0], path[0 + 1]);
  }

  /** The first event of the path happens before the last. */
  ghost predicate HappensBefore(run: seq<Event>, path: seq<nat>) {
    |path| >= 2 && (forall p :: 0 <= p < |path| - 1 ==> Precedes(run, path[p], path[p + 1]))
  }

  lemma EdgeIsMonotone(run: seq<Event>, i: nat, j: nat)
    requires Valid(run) && NoWraps(run) && Precedes(run, i, j)
    ensures run[i].a in ClocksAt(run, i + 1) && run[j].a in ClocksAt(run, j + 1)
    ensures Stamp(run, i).lampTs <= Stamp(run, j).lampTs
  {
    StampExists(run, i);
    StampExists(run, j);
    if run[i].a == run[j].a {
      ClocksAreMonotone(run, i + 1, j + 1, run[i].a);
    } else {
      assert ValidAt(run, j);
    }
  }

  lemma {:induction false} PathIsMonotone(run: seq<Event>, path: seq<nat>, p: nat)
    requires Valid(run) && NoWraps(run) && HappensBefore(run, path) && p < |path|
    ensures path[0] < |run| && path[p] < |run|
    ensures run[path[0]].a in ClocksAt(run, path[0] + 1) && run[path[p]].a in ClocksAt(run, path[p] + 1)
    ensures Stamp(run, path[0]).lampTs <= Stamp(run, path[p]).lampTs
    decreases p
  {
    assert Precedes(run, path[0], path[0 + 1]);
    if p == 0 {
      StampExists(run, path[0]);
    } else {
      PathIsMonotone(run, path, p - 1);
      assert Precedes(run, path[p - 1], path[p - 1 + 1]);
      EdgeIsMonotone(run, path[p - 1], path[p]);
    }
  }

  /** The stamp of a send is later than what was stored before it, exactly when the reading is not equal to what
      was stored and the increment does not wrap around. */
  lemma SendIsStrict(run: seq<Event>, k: nat)
    requires Valid(run) && k < |run| && run[k].Send?
    ensures run[k].a in ClocksAt(run, k) && run[k].a in ClocksAt(run, k + 1)
    ensures ClocksAt(run, k)[run[k].a].lampTs < Stamp(run, k).lampTs <==>
              run[k].now != ClocksAt(run, k)[run[k].a].lampTs && !Wraps(run, k)
  {
    assert ValidAt(run, k);
  }

  /** What each event stamps, in every run: the reading; the reading or, when that is behind the clock, one more than
      the clock; and the received timestamp with its sender id, unless it is behind.  Other clocks stay. */
  lemma EventStamps(run: seq<Event>, k: nat)
    requires Valid(run) && k < |run|
    ensures run[k].a in ClocksAt(run, k + 1)
    ensures run[k].Init? ==> Stamp(run, k) == Ts(run[k].id, run[k].now)
    ensures run[k].Send? ==>
              run[k].a in ClocksAt(run, k) &&
              var stored, stamp := ClocksAt(run, k)[run[k].a], Stamp(run, k);
              stamp.senderId == stored.senderId && (run[k].now >= stored.lampTs ==> stamp.lampTs == run[k].now) &&
              (run[k].now < stored.lampTs < 0x7FFF_FFFF_FFFF_FFFF ==> stamp.lampTs == stored.lampTs + 1) &&
              (run[k].now < stored.lampTs == 0x7FFF_FFFF_FFFF_FFFF ==> stamp.lampTs == -0x8000_0000_0000_0000)
    ensures run[k].Receive? ==>
              var from := run[k].from;
              from < k && run[k].a in ClocksAt(run, k) && run[from].a in ClocksAt(run, from + 1) &&
              var stored, received := ClocksAt(run, k)[run[k].a], Stamp(run, from);
              Stamp(run, k) == if received.lampTs < stored.lampTs then stored else received
    ensures ClocksAt(run, k + 1) - {run[k].a} == ClocksAt(run, k) - {run[k].a}
  {
    assert ValidAt(run, k);
    if run[k].Receive? {
      StampExists(run, run[k].from);
    }
  }

  /** In a run without a wrapped increment no send is stamped earlier than its own reading, and exactly the sends that
      do not take the `+ 1` branch are stamped with it. */
  lemma SendsFollowReadings(run: seq<Event>, k: nat)
    requires Valid(run) && NoWraps(run) && k < |run| && run[k].Send?
    ensures run[k].a in ClocksAt(run, k) && run[k].a in ClocksAt(run, k + 1)
    ensures run[k].now <= Stamp(run, k).lampTs
    ensures Stamp(run, k).lampTs == run[k].now <==> ClocksAt(run, k)[run[k].a].lampTs <= run[k].now
  {
    EventStamps(run, k);
    assert !Wraps(run, k);
  }

  /** Causal timestamps: if one send happens before another, its timestamp is no later, and it is earlier unless
      the later send read a clock equal to its stored timestamp. */
  lemma CausalTimestamps(run: seq<Event>, path: seq<nat>)
    requires Valid(run) && NoWraps(run) && HappensBefore(run, path)
    requires path[0] < |run| && run[path[0]].Send? && path[|path| - 1] < |run| && run[path[|path| - 1]].Send?
    ensures var i, j := path[0], path[|path| - 1];
            run[i].a in ClocksAt(run, i + 1) && run[j].a in ClocksAt(run, j + 1) && run[j].a in ClocksAt(run, j) &&
            Stamp(run, i).lampTs <= Stamp(run, j).lampTs &&
            (run[j].now != ClocksAt(run, j)[run[j].a].lampTs ==> Stamp(run, i).lampTs < Stamp(run, j).lampTs)
  {
    PathIsMonotone(run, path, |path| - 1);
    LastSendFollows(run, path);
    SendIsStrict(run, path[|path| - 1]);
  }

  /** What the last send found stored is no earlier than the first timestamp. */
  lemma LastSendFollows(run: seq<Event>, path: seq<nat>)
    requires Valid(run) && NoWraps(run) && HappensBefore(run, path)
    requires path[|path| - 1] < |run| && run[path[|path| - 1]].Send?
    ensures var i, j := path[0], path[|path| - 1];
            i < |run| && run[i].a in ClocksAt(run, i + 1) && run[j].a in ClocksAt(run, j) &&
            Stamp(run, i).lampTs <= ClocksAt(run, j)[run[j].a].lampTs
  {
    var n := |path| - 1;
    PathIsMonotone(run, path, n - 1);
    assert Precedes(run, path[n - 1], path[n - 1 + 1]);
    SendFollows(run, path[n - 1], path[n]);
  }

  /** What a send found stored is no earlier than the clock after any event that directly precedes it. */
  lemma SendFollows(run: seq<Event>, p: nat, j: nat)
    requires Valid(run) && NoWraps(run) && Precedes(run, p, j) && run[j].Send?
    ensures run[p].a in ClocksAt(run, p + 1) && run[j].a in ClocksAt(run, j)
    ensures Stamp(run, p).lampTs <= ClocksAt(run, j)[run[j].a].lampTs
  {
    StampExists(run, p);
    ClocksAreMonotone(run, p + 1, j, run[p].a);
  }

  /** All agents read one clock that never goes back. */
  ghost predicate OneClock(run: seq<Event>) {
    forall i, j :: 0 <= i < j < |run| && Reads(run[i]) && Reads(run[j]) ==> run[i].now <= run[j].now
  }

  lemma {:induction false} OneClockNeverBumps(run: seq<Event>, k: nat)
    requires Valid(run) && OneClock(run) && k <= |run|
    ensures BumpCount(run, k) == 0
    ensures forall j :: k <= j < |run| && Reads(run[j]) ==> MaxReading(run, k) <= run[j].now
  {
    if k > 0 {
      OneClockNeverBumps(run, k - 1);
      if Bumps(run, k - 1) {
        StoredDrift(run, k - 1, run[k - 1].a);
      }
    }
  }

  /** If all agents read one clock that never goes back, no send takes the `+ 1` branch and no timestamp, stored
      or in flight, is later than the latest reading. */
  lemma SharedClock(run: seq<Event>, k: nat)
    requires Valid(run) && OneClock(run) && k <= |run|
    ensures BumpCount(run, k) == 0
    ensures forall a :: a in ClocksAt(run, k) ==> ClocksAt(run, k)[a].lampTs <= MaxReading(run, k)
    ensures forall j :: 0 <= j < k && run[j].Send? ==>
              run[j].a in ClocksAt(run, j + 1) && Stamp(run, j).lampTs <= MaxReading(run, k)
  {
    OneClockNeverBumps(run, k);
    DriftBound(run, k);
  }

  /** What an agent has stored was stamped by one of its earlier events. */
  lemma {:induction false} LastStamp(run: seq<Event>, k: nat, a: AgentId) returns (i: nat)
    requires Valid(run) && k <= |run| && a in ClocksAt(run, k)
    ensures i < k && run[i].a == a && a in ClocksAt(run, i + 1) && Stamp(run, i) == ClocksAt(run, k)[a]
  {
    assert ValidAt(run, k - 1);
    if run[k - 1].a == a {
      i := k - 1;
    } else {
      i := LastStamp(run, k - 1, a);
    }
  }

  /** Every event of the run is stamped no earlier than the events that directly precede it. */
  ghost predicate Ordered(run: seq<Event>) {
    forall i: nat, j: nat :: Precedes(run, i, j) ==>
      run[i].a in ClocksAt(run, i + 1) && run[j].a in ClocksAt(run, j + 1) &&
        Stamp(run, i).lampTs <= Stamp(run, j).lampTs
  }

  /** Timestamps follow causality exactly in the runs in which no send increments the largest `int64`. */
  lemma OrderedIffNoWraps(run: seq<Event>)
    requires Valid(run)
    ensures Ordered(run) <==> NoWraps(run)
  {
    if NoWraps(run) {
      forall i: nat, j: nat | Precedes(run, i, j)
        ensures run[i].a in ClocksAt(run, i + 1) && run[j].a in ClocksAt(run, j + 1) &&
                Stamp(run, i).lampTs <= Stamp(run, j).lampTs
      {
        EdgeIsMonotone(run, i, j);
      }
    }
    if k :| 0 <= k < |run| && Wraps(run, k) {
      var i := LastStamp(run, k, run[k].a);
      assert Precedes(run, i, k);
    }
  }

  /** Two sends of one agent at the clock reading it has stored carry the same timestamp. */
  lemma EqualReadingsTie(a: AgentId, id: int, now: int64)
    ensures var run := [Init(a, id, now), Send(a, now), Send(a, now)];
            Valid(run) && Precedes(run, 1, 2) && a in ClocksAt(run, 2) && a in ClocksAt(run, 3) &&
            Stamp(run, 1).lampTs == Stamp(run, 2).lampTs
  {
    var run := [Init(a, id, now), Send(a, now), Send(a, now)];
    assert ClocksAt(run, 1) == map[a := Ts(id, now)];
    assert ClocksAt(run, 2) == map[a := Ts(id, now)];
    assert ClocksAt(run, 3) == map[a := Ts(id, now)];
    assert ValidAt(run, 0) && ValidAt(run, 1) && ValidAt(run, 2);
  }

  /** A send that increments the largest `int64` gets the smallest timestamp. */
  lemma WrapBreaksOrder(a: AgentId, id: int, now: int64)
    requires now < MAX_INT64
    ensures var run := [Init(a, id, MAX_INT64), Send(a, MAX_INT64), Send(a, now)];
            Valid(run) && Precedes(run, 1, 2) && a in ClocksAt(run, 2) && a in ClocksAt(run, 3) &&
            Stamp(run, 2).lampTs == MIN_INT64 < Stamp(run, 1).lampTs
  {
    var run := [Init(a, id, MAX_INT64), Send(a, MAX_INT64), Send(a, now)];
    assert ClocksAt(run, 1) == map[a := Ts(id, MAX_INT64)];
    assert ClocksAt(run, 2) == map[a := Ts(id, MAX_INT64)];
    assert ClocksAt(run, 3) == map[a := Ts(id, MIN_INT64)];
    assert ValidAt(run, 0) && ValidAt(run, 1) && ValidAt(run, 2);
  }
}
