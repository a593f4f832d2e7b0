/** Which presses share a ring event: begin_ring_press in src/events/device_event_processor.cpp over the
    transactions of src/events/event_store.cpp. */
module RingCoalescing {
  import opened EventPaths
  import opened Options
  import opened StoreTables

  /** What reaches the store: a press, which first checks for expiry, a check by the worker, or any
      transaction that does not touch ring states. A check may fail; the press is recorded all the same. No
      remote state command arrives. */
  datatype Stimulus =
    | Press(at: int, checkWorks: bool, stamp: string, recordingId: string, newRecording: bool, path: string)
    | Check(at: int, checkWorks: bool)
    | Other(op: Op)

  /** The store and the latest clock reading. For every press its time, the event it got, and the time of the
      last check that was committed after the press before it, its own included; `checked` is that of the
      press to come. */
  datatype Log = Log(tables: Tables, clock: int, times: seq<int>, checks: seq<Option<int>>, ids: seq<string>,
                     checked: Option<int>)

  predicate TouchesRings(op: Op) {
    op.FirstPress? || op.Repress? || op.Expire? || op.RecoverAccepted? || op.SetRingState?
  }

  /** A check for expiry, committed or failed. */
  ghost function Checked(l: Log, at: int, works: bool): Log {
    if works then l.(tables := CheckExpiry(l.tables, at), clock := at, checked := Some(at)) else l.(clock := at)
  }

  ghost function OpOf(t: Tables, s: Stimulus): Op
    requires s.Press?
  {
    PressOp(t, s.stamp, s.recordingId, s.newRecording, s.at, s.path)
  }

  /** The clock does not run backwards, and the press is recorded. */
  ghost predicate Admissible(l: Log, s: Stimulus) {
    match s
    case Press(at, works, _, _, _, _) =>
      at >= l.clock && Allowed(Checked(l, at, works).tables, OpOf(Checked(l, at, works).tables, s))
    case Check(at, _) => at >= l.clock
    case Other(op) => !TouchesRings(op)
  }

  /** The event the press is recorded under. */
  ghost function EventOf(t: Tables, s: Stimulus): string
    requires s.Press?
  {
    if HasActive(t) then ActiveRing(t) else FormatEventId(s.stamp, t.sequence + 1)
  }

  ghost function Pressed(l: Log, s: Stimulus): Log
    requires s.Press?
  {
    Log(Apply(l.tables, OpOf(l.tables, s)), l.clock, l.times + [s.at], l.checks + [l.checked],
        l.ids + [EventOf(l.tables, s)], None)
  }

  ghost function Next(l: Log, s: Stimulus): Log {
    match s
    case Press(at, works, _, _, _, _) => Pressed(Checked(l, at, works), s)
    case Check(at, works) => Checked(l, at, works)
    case Other(op) => l.(tables := Apply(l.tables, op))
  }

  ghost function LogOf(start: Tables, clock: int, run: seq<Stimulus>): Log {
    if run == [] then Log(start, clock, [], [], [], None)
    else Next(LogOf(start, clock, run[..|run| - 1]), run[|run| - 1])
  }

  ghost predicate AllAdmissible(start: Tables, clock: int, run: seq<Stimulus>) {
    forall k | 0 <= k < |run| :: Admissible(LogOf(start, clock, run[..k]), run[k])
  }

  // ---------------------------------------------------------------- grouping, without the store

  /** When a ring lapses that was pressed first and last at these times. */
  function LapsesAt(first: int, last: int): int { if last + 40000 < first + 120000 then last + 40000 else first + 120000 }

  /** No check was committed since the ring of press j - 1, which press f opened, has lapsed. */
  predicate Joins(times: seq<int>, checks: seq<Option<int>>, f: nat, j: nat)
    requires f < j < |times| && |checks| == |times|
  {
    checks[j].None? || checks[j].value < LapsesAt(times[f], times[j - 1])
  }

  /** The press that opens the group of press j. */
  function FirstOf(times: seq<int>, checks: seq<Option<int>>, j: nat): (f: nat)
    requires j < |times| == |checks|
    ensures f <= j
  {
    if j == 0 then 0
    else
      var f := FirstOf(times, checks, j - 1);
      if Joins(times, checks, f, j) then f else j
  }

  lemma {:induction false} FirstOfPrefix(times: seq<int>, checks: seq<Option<int>>, at: int, check: Option<int>, j: nat)
    requires j < |times| == |checks|
    ensures FirstOf(times + [at], checks + [check], j) == FirstOf(times, checks, j)
  {
    if j > 0 {
      FirstOfPrefix(times, checks, at, check, j - 1);
    }
  }

  /** A group is a run of consecutive presses. Where the check of a press is committed, the press comes less
      than 40 s after the one before it and less than 120 s after the first of its group. */
  lemma {:induction false} GroupBounds(times: seq<int>, checks: seq<Option<int>>, j: nat, k: nat)
    requires j < |times| == |checks| && FirstOf(times, checks, j) <= k <= j
    ensures FirstOf(times, checks, k) == FirstOf(times, checks, j)
    ensures k > FirstOf(times, checks, j) && checks[k] == Some(times[k]) ==>
      times[k] - times[k - 1] < 40000 && times[k] - times[FirstOf(times, checks, j)] < 120000
  {
    if k < j {
      GroupBounds(times, checks, j - 1, k);
    }
  }

  /** Presses share an event id exactly when they share a group. */
  ghost predicate Grouped(times: seq<int>, checks: seq<Option<int>>, ids: seq<string>) {
    && |times| == |checks| == |ids|
    && forall i, j | 0 <= i < |ids| && 0 <= j < |ids| ::
         ids[i] == ids[j] <==> FirstOf(times, checks, i) == FirstOf(times, checks, j)
  }

  // ------------------------------------------------------------------------------------ the proof

  ghost predicate NoneActive(t: Tables) { forall e :: !IsActive(t, e) }

  /** The ring of the last press agrees with the last press times; it has ended iff a check was committed
      since it lapsed. */
  ghost predicate LastRing(l: Log) {
    && |l.times| == |l.checks| == |l.ids|
    && (l.checked.Some? ==> l.checked.value <= l.clock)
    && (l.ids == [] ==> NoneActive(l.tables))
    && (l.ids != [] ==>
          var m := |l.ids| - 1;
          var e := l.ids[m];
          && e in l.tables.rings
          && l.tables.rings[e].last == l.times[m]
          && l.tables.rings[e].first == l.times[FirstOf(l.times, l.checks, m)]
          && l.tables.rings[e].state != Accepted
          && (l.tables.rings[e].state == Ended <==> l.checked.Some? && l.checked.value >= Deadline(l.tables.rings[e]))
          && (forall x | IsActive(l.tables, x) :: x == e))
  }

  ghost predicate Known(l: Log) { forall i | 0 <= i < |l.ids| :: l.ids[i] in l.tables.rings }

  ghost predicate Inv(l: Log) { Ok(l.tables) && LastRing(l) && Known(l) && Grouped(l.times, l.checks, l.ids) }

  lemma OtherKeepsRings(t: Tables, op: Op)
    requires !TouchesRings(op)
    ensures Apply(t, op).rings == t.rings
  {
    hide FormatEventId, HasSegment, HasIndex, Closed, SetSha, NoOtherActive;
  }

  /** A check ends the ring of the last press iff that has lapsed, and no other ring. */
  lemma CheckEnds(l: Log, at: int)
    requires LastRing(l)
    ensures l.ids == [] ==> CheckExpiry(l.tables, at) == l.tables
    ensures l.ids != [] ==>
      var e := l.ids[|l.ids| - 1];
      CheckExpiry(l.tables, at) == if IsDue(l.tables, e, at) then Apply(l.tables, Expire(e, at)) else l.tables
  {
    hide Apply, FirstOf;
    if HasDue(l.tables, at) {
      assert IsActive(l.tables, DueRing(l.tables, at));
    }
  }

  lemma ExpireIs(t: Tables, e: string, at: int)
    requires IsDue(t, e, at)
    ensures Apply(t, Expire(e, at)) == t.(rings := t.rings[e := t.rings[e].(state := Ended)])
  {
  }

  lemma CheckKeepsLastRing(l: Log, at: int, works: bool)
    requires LastRing(l) && Known(l) && at >= l.clock
    ensures LastRing(Checked(l, at, works)) && Known(Checked(l, at, works))
  {
    CheckEnds(l, at);
    hide CheckExpiry, FirstOf, Apply;
    if works && l.ids != [] && IsDue(l.tables, l.ids[|l.ids| - 1], at) {
      var e := l.ids[|l.ids| - 1];
      ExpireIs(l.tables, e, at);
      assert forall x | IsActive(Checked(l, at, works).tables, x) :: IsActive(l.tables, x);
    }
  }

  lemma CheckKeepsInv(l: Log, at: int, works: bool)
    requires Inv(l) && at >= l.clock
    ensures Inv(Checked(l, at, works))
  {
    hide Ok, Grouped, LastRing, Known, Apply;
    CheckKeepsLastRing(l, at, works);
    if works && HasDue(l.tables, at) {
      ApplyKeepsOk(l.tables, Expire(DueRing(l.tables, at), at));
    }
  }

  /** Which ring a press finds active: that of the press before it, unless a check was committed since that
      ring lapsed. */
  lemma ActiveIffJoins(l: Log, at: int)
    requires Inv(l)
    ensures l.ids == [] ==> !HasActive(l.tables)
    ensures l.ids != [] ==>
      var m := |l.ids| - 1;
      && (HasActive(l.tables) ==> ActiveRing(l.tables) == l.ids[m])
      && (HasActive(l.tables) <==>
            Joins(l.times + [at], l.checks + [l.checked], FirstOf(l.times, l.checks, m), m + 1))
  {
    hide Ok, Grouped, Known;
    if l.ids != [] {
      var e := l.ids[|l.ids| - 1];
      assert l.tables.rings[e].state != Ended <==> IsActive(l.tables, e);
    }
  }

  lemma GroupedExtends(times: seq<int>, checks: seq<Option<int>>, ids: seq<string>, at: int, check: Option<int>, id: string)
    requires Grouped(times, checks, ids)
    requires
      if |ids| > 0 && Joins(times + [at], checks + [check], FirstOf(times, checks, |ids| - 1), |ids|) then id == ids[|ids| - 1]
      else id !in ids
    ensures Grouped(times + [at], checks + [check], ids + [id])
  {
    var ts, cs, es := times + [at], checks + [check], ids + [id];
    forall i | 0 <= i < |times| ensures FirstOf(ts, cs, i) == FirstOf(times, checks, i) {
      FirstOfPrefix(times, checks, at, check, i);
    }
    if |ids| > 0 {
      var f := FirstOf(times, checks, |ids| - 1);
      assert FirstOf(ts, cs, |ids|) == if Joins(ts, cs, f, |ids|) then f else |ids|;
    }
    hide Joins, FirstOf;
    forall i | 0 <= i < |ids| ensures es[i] == id <==> FirstOf(ts, cs, i) == FirstOf(ts, cs, |ids|) {
    }
  }

  lemma FreshRing(t: Tables, stamp: string)
    requires Ok(t)
    ensures FormatEventId(stamp, t.sequence + 1) !in t.rings
  {
    hide FormatEventId;
    FreshIdIsNew(t, stamp);
  }

  lemma PressedKeepsInv(l: Log, s: Stimulus)
    requires Inv(l) && s.Press? && Allowed(l.tables, OpOf(l.tables, s))
    ensures Inv(Pressed(l, s))
  {
    hide FormatEventId, NoOtherActive, Joins, Grouped, Ok;
    var t, n := l.tables, Pressed(l, s);
    ActiveIffJoins(l, s.at);
    ApplyKeepsOk(t, OpOf(t, s));
    FreshRing(t, s.stamp);
    var m := |l.ids|;
    if m > 0 {
      FirstOfPrefix(l.times, l.checks, s.at, l.checked, m - 1);
    }
    GroupedExtends(l.times, l.checks, l.ids, s.at, l.checked, EventOf(t, s));
    forall x | IsActive(n.tables, x) ensures x == EventOf(t, s) {
      if IsActive(t, x) {
        assert HasActive(t);
      }
    }
  }

  lemma PressKeepsInv(l: Log, s: Stimulus)
    requires Inv(l) && s.Press? && Admissible(l, s)
    ensures Inv(Next(l, s))
  {
    hide Inv, Checked, Pressed, Allowed;
    CheckKeepsInv(l, s.at, s.checkWorks);
    PressedKeepsInv(Checked(l, s.at, s.checkWorks), s);
  }

  lemma OtherKeepsInv(l: Log, op: Op)
    requires Inv(l) && !TouchesRings(op)
    ensures Inv(l.(tables := Apply(l.tables, op)))
  {
    hide Ok, Grouped, Apply, Deadline, FirstOf;
    OtherKeepsRings(l.tables, op);
    ApplyKeepsOk(l.tables, op);
    assert forall e :: IsActive(Apply(l.tables, op), e) == IsActive(l.tables, e);
  }

  lemma NextKeepsInv(l: Log, s: Stimulus)
    requires Inv(l) && Admissible(l, s)
    ensures Inv(Next(l, s))
  {
    hide Inv;
    match s
    case Press(_, _, _, _, _, _) => PressKeepsInv(l, s);
    case Check(at, works) => CheckKeepsInv(l, at, works);
    case Other(op) => OtherKeepsInv(l, op);
  }

  lemma {:induction false} LogKeepsInv(start: Tables, clock: int, run: seq<Stimulus>)
    requires Ok(start) && NoneActive(start) && AllAdmissible(start, clock, run)
    ensures Inv(LogOf(start, clock, run))
  {
    hide Ok, Admissible, Next;
    if run != [] {
      var shorter := run[..|run| - 1];
      assert forall k | 0 <= k < |shorter| :: shorter[..k] == run[..k];
      LogKeepsInv(start, clock, shorter);
      NextKeepsInv(LogOf(start, clock, shorter), run[|run| - 1]);
    }
  }

  /** Over every run under a clock that does not run backwards, failing checks included: which presses share
      an event depends on the times of the presses and of the last committed check before each. */
  lemma PressesAreGrouped(start: Tables, clock: int, run: seq<Stimulus>)
    requires Ok(start) && NoneActive(start) && AllAdmissible(start, clock, run)
    ensures var l := LogOf(start, clock, run); Grouped(l.times, l.checks, l.ids)
  {
    LogKeepsInv(start, clock, run);
  }

  /** A press starts a new event iff a check was committed, its own or one of the worker's after the press
      before it, at a time when the ring of that press had lapsed. A press that comes too late shares the old
      event if no check since then worked. */
  lemma NewEventIff(start: Tables, clock: int, run: seq<Stimulus>, j: nat)
    requires Ok(start) && NoneActive(start) && AllAdmissible(start, clock, run)
    requires 0 < j < |LogOf(start, clock, run).ids|
    ensures var l := LogOf(start, clock, run);
      && |l.times| == |l.checks| == |l.ids|
      && (l.ids[j] !in l.ids[..j] <==>
            l.checks[j].Some?
            && (l.checks[j].value - l.times[j - 1] >= 40000
                || l.checks[j].value - l.times[FirstOf(l.times, l.checks, j - 1)] >= 120000))
  {
    hide LogOf, Ok, LastRing, Known, AllAdmissible, Grouped, FirstOf;
    LogKeepsInv(start, clock, run);
    var l := LogOf(start, clock, run);
    assert |l.times| == |l.checks| == |l.ids| by {
      SameLengths(l);
    }
    NewGroupIff(l.times, l.checks, l.ids, j);
  }

  lemma SameLengths(l: Log)
    requires LastRing(l)
    ensures |l.times| == |l.checks| == |l.ids|
  {
  }

  lemma NewGroupIff(times: seq<int>, checks: seq<Option<int>>, ids: seq<string>, j: nat)
    requires Grouped(times, checks, ids) && 0 < j < |ids|
    ensures ids[j] !in ids[..j] <==> !Joins(times, checks, FirstOf(times, checks, j - 1), j)
  {
    if Joins(times, checks, FirstOf(times, checks, j - 1), j) {
      assert ids[..j][j - 1] == ids[j];
    } else {
      forall i | 0 <= i < j ensures ids[..j][i] != ids[j] {
        assert FirstOf(times, checks, i) <= i < FirstOf(times, checks, j);
      }
    }
  }

  function Committed(times: seq<int>): seq<Option<int>> { seq(|times|, i requires 0 <= i < |times| => Some(times[i])) }

  lemma {:induction false} OwnChecksCommitted(start: Tables, clock: int, run: seq<Stimulus>)
    requires forall k | 0 <= k < |run| && run[k].Press? :: run[k].checkWorks
    ensures var l := LogOf(start, clock, run); l.checks == Committed(l.times)
  {
    hide CheckExpiry, Apply, OpOf, EventOf;
    if run != [] {
      OwnChecksCommitted(start, clock, run[..|run| - 1]);
    }
  }

  /** When no press loses its own check, the press times alone decide: expiry checks in between, however
      many, change nothing. */
  lemma TimesAloneDecide(start: Tables, clock: int, run: seq<Stimulus>)
    requires Ok(start) && NoneActive(start) && AllAdmissible(start, clock, run)
    requires forall k | 0 <= k < |run| && run[k].Press? :: run[k].checkWorks
    ensures var l := LogOf(start, clock, run); Grouped(l.times, Committed(l.times), l.ids)
  {
    hide LogOf, Ok, AllAdmissible, Committed, Grouped;
    PressesAreGrouped(start, clock, run);
    OwnChecksCommitted(start, clock, run);
  }
}
