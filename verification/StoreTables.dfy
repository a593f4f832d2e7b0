/** The tables behind src/events/event_store.cpp and what each committed transaction does to them.
    `Allowed` is what the schema's constraints and the statements' WHERE clauses admit; a transaction that
    is not allowed, or whose statements fail, leaves the tables as they were. */
module StoreTables {
  import opened EventPaths
  import opened Options

  datatype Kind = Person | Ring

  datatype RingState = Ringing | Accepted | Ended

  datatype Status = Recording | Finalized | Interrupted | Failed

  datatype EventRow = EventRow(kind: Kind, recordingId: string, at: int, snapshotPath: string,
                               snapshotUrl: string, reported: int)

  datatype RingRow = RingRow(state: RingState, pressCount: nat, first: int, last: int)

  datatype PressKey = PressKey(eventId: string, seqNo: nat)

  datatype PressRow = PressRow(at: int, reported: bool)

  datatype RecordingRow = RecordingRow(status: Status, startedAt: int, endedAt: Option<int>,
                                       segmentCount: int, totalMs: int)

  datatype SegmentRow = SegmentRow(segmentId: string, recordingId: string, index: int, durationMs: int,
                                   sha256: string)

  datatype Tables = Tables(
    sequence: nat,
    events: map<string, EventRow>,
    rings: map<string, RingRow>,
    presses: map<PressKey, PressRow>,
    recordings: map<string, RecordingRow>,
    segments: seq<SegmentRow>,
    clipSequences: map<string, nat>)

  const EMPTY: Tables := Tables(0, map[], map[], map[], map[], [], map[])

  /** One committed transaction; where a statement says LIMIT 1, the row it found is named. */
  datatype Op =
    | CreatePerson(stamp: string, recordingId: string, at: int, path: string)
    | FirstPress(stamp: string, recordingId: string, newRecording: bool, at: int, path: string)
    | Repress(eventId: string, at: int)
    | Expire(eventId: string, at: int)
    | RecoverAccepted(eventId: string)
    | SetRingState(eventId: string, state: RingState)
    | MarkPressReported(eventId: string, seqNo: nat)
    | BeginRecording(recordingId: string, at: int)
    | AppendSegment(recordingId: string, segmentId: string, index: int, durationMs: int, sha256: string)
    | FinalizeRecording(recordingId: string, at: int, status: Status)
    | SetSha256(segmentId: string, sha256: string)
    | SetSnapshotUrl(eventId: string, url: string)
    | SetReported(eventId: string, value: int)
    | AllocateClip(date: string, sequence: nat)
    | Reopen

  predicate IsActive(t: Tables, e: string) { e in t.rings && t.rings[e].state != Ended }

  /** When a ringing event lapses: 40 s after the last press, at most 120 s after the first. */
  function Deadline(r: RingRow): int {
    if r.last + 40000 < r.first + 120000 then r.last + 40000 else r.first + 120000
  }

  predicate IsDue(t: Tables, e: string, at: int) {
    e in t.rings && t.rings[e].state == Ringing && at >= Deadline(t.rings[e])
  }

  /** The partial unique index: no active ring besides e. */
  predicate NoOtherActive(t: Tables, e: string) { forall x | x in t.rings && x != e :: t.rings[x].state == Ended }

  predicate HasSegment(t: Tables, segmentId: string) {
    exists i | 0 <= i < |t.segments| :: t.segments[i].segmentId == segmentId
  }

  predicate HasIndex(t: Tables, r: string, index: int) {
    exists i | 0 <= i < |t.segments| :: t.segments[i].recordingId == r && t.segments[i].index == index
  }

  predicate ShaMayBecome(row: SegmentRow, sha: string) { row.sha256 == "" || row.sha256 == sha }

  predicate Allowed(t: Tables, op: Op) {
    match op
    case CreatePerson(stamp, r, _, _) =>
      FormatEventId(stamp, t.sequence + 1) !in t.events && r in t.recordings
    case FirstPress(stamp, r, newRecording, _, _) =>
      var id := FormatEventId(stamp, t.sequence + 1);
      && id !in t.events && id !in t.rings
      && (if newRecording then r !in t.recordings else r in t.recordings)
      && NoOtherActive(t, id)
    case Repress(e, _) => IsActive(t, e) && PressKey(e, t.rings[e].pressCount + 1) !in t.presses
    case Expire(e, at) => IsDue(t, e, at)
    case RecoverAccepted(e) => e in t.rings && t.rings[e].state == Accepted
    case SetRingState(e, state) => e in t.rings && (state == Ended || NoOtherActive(t, e))
    case MarkPressReported(e, s) => PressKey(e, s) in t.presses
    case BeginRecording(r, _) => r !in t.recordings
    case AppendSegment(r, id, index, _, _) =>
      && r in t.recordings && t.recordings[r].status == Recording
      && !HasSegment(t, id) && !HasIndex(t, r, index)
    case FinalizeRecording(r, _, status) =>
      r in t.recordings && t.recordings[r].status == Recording && status != Recording
    case SetSha256(id, sha) =>
      exists i | 0 <= i < |t.segments| :: t.segments[i].segmentId == id && ShaMayBecome(t.segments[i], sha)
    case SetSnapshotUrl(e, _) => e in t.events
    case SetReported(_, value) => value == 1 || value == -1
    case AllocateClip(date, n) => n > LastClip(t, date)
    case Reopen => true
  }

  function LastClip(t: Tables, date: string): nat {
    if date in t.clipSequences then t.clipSequences[date] else 0
  }

  function WithRecording(t: Tables, r: string, at: int): Tables {
    t.(recordings := t.recordings[r := RecordingRow(Recording, at, None, 0, 0)])
  }

  function WithEvent(t: Tables, stamp: string, row: EventRow): Tables {
    t.(sequence := t.sequence + 1, events := t.events[FormatEventId(stamp, t.sequence + 1) := row])
  }

  function WithRingState(t: Tables, e: string, state: RingState): Tables
    requires e in t.rings
  {
    t.(rings := t.rings[e := t.rings[e].(state := state)])
  }

  function SetSha(segments: seq<SegmentRow>, id: string, sha: string): (s: seq<SegmentRow>)
    ensures |s| == |segments|
  {
    seq(|segments|, i requires 0 <= i < |segments| =>
      if segments[i].segmentId == id && ShaMayBecome(segments[i], sha) then segments[i].(sha256 := sha)
      else segments[i])
  }

  /** A recording left open by the previous process: it can never be completed any more. */
  function Closed(row: RecordingRow): RecordingRow {
    if row.status == Recording then
      row.(status := Failed, endedAt := if row.endedAt.None? then Some(row.startedAt) else row.endedAt)
    else row
  }

  function Effect(t: Tables, op: Op): Tables
    requires Allowed(t, op)
  {
    match op
    case CreatePerson(stamp, r, at, path) => WithEvent(t, stamp, EventRow(Person, r, at, path, "", 0))
    case FirstPress(stamp, r, newRecording, at, path) =>
      var t1 := if newRecording then WithRecording(t, r, at) else t;
      var t2 := WithEvent(t1, stamp, EventRow(Ring, r, at, path, "", 0));
      t2.(rings := t2.rings[FormatEventId(stamp, t.sequence + 1) := RingRow(Ringing, 1, at, at)])
    case Repress(e, at) =>
      var n := t.rings[e].pressCount + 1;
      t.(rings := t.rings[e := t.rings[e].(pressCount := n, last := at)],
         presses := t.presses[PressKey(e, n) := PressRow(at, false)])
    case Expire(e, _) => WithRingState(t, e, Ended)
    case RecoverAccepted(e) => WithRingState(t, e, Ended)
    case SetRingState(e, state) => WithRingState(t, e, state)
    case MarkPressReported(e, s) =>
      t.(presses := t.presses[PressKey(e, s) := t.presses[PressKey(e, s)].(reported := true)])
    case BeginRecording(r, at) => WithRecording(t, r, at)
    case AppendSegment(r, id, index, duration, sha) =>
      var row := t.recordings[r];
      t.(segments := t.segments + [SegmentRow(id, r, index, duration, sha)],
         recordings := t.recordings[r := row.(segmentCount := row.segmentCount + 1, totalMs := row.totalMs + duration)])
    case FinalizeRecording(r, at, status) =>
      t.(recordings := t.recordings[r := t.recordings[r].(status := status, endedAt := Some(at))])
    case SetSha256(id, sha) => t.(segments := SetSha(t.segments, id, sha))
    case SetSnapshotUrl(e, url) => t.(events := t.events[e := t.events[e].(snapshotUrl := url)])
    case SetReported(e, value) =>
      if e in t.events then t.(events := t.events[e := t.events[e].(reported := value)]) else t
    case AllocateClip(date, n) => t.(clipSequences := t.clipSequences[date := n])
    case Reopen => t.(recordings := map r | r in t.recordings :: Closed(t.recordings[r]))
  }

  function Apply(t: Tables, op: Op): Tables {
    if Allowed(t, op) then Effect(t, op) else t
  }

  /** A run of the store: every list of transactions, from the empty database. */
  function Run(ops: seq<Op>): Tables {
    if ops == [] then EMPTY else Apply(Run(ops[..|ops| - 1]), ops[|ops| - 1])
  }

  // ------------------------------------------------------------- the rows a lookup with LIMIT 1 finds

  ghost predicate HasActive(t: Tables) { exists e :: IsActive(t, e) }

  ghost function ActiveRing(t: Tables): (e: string)
    requires HasActive(t)
    ensures IsActive(t, e)
  {
    var e :| IsActive(t, e); e
  }

  /** record_ring_press: one more press of the active ring, or a new ring event. */
  ghost function PressOp(t: Tables, stamp: string, recordingId: string, newRecording: bool, at: int, path: string): Op {
    if HasActive(t) then Repress(ActiveRing(t), at) else FirstPress(stamp, recordingId, newRecording, at, path)
  }

  ghost predicate HasDue(t: Tables, at: int) { exists e :: IsDue(t, e, at) }

  ghost function DueRing(t: Tables, at: int): (e: string)
    requires HasDue(t, at)
    ensures IsDue(t, e, at)
  {
    var e :| IsDue(t, e, at); e
  }

  /** expire_open_ring */
  ghost function CheckExpiry(t: Tables, at: int): Tables {
    if HasDue(t, at) then Apply(t, Expire(DueRing(t, at), at)) else t
  }

  predicate IsAccepted(t: Tables, e: string) { e in t.rings && t.rings[e].state == Accepted }

  ghost predicate HasAccepted(t: Tables) { exists e :: IsAccepted(t, e) }

  ghost function AcceptedRing(t: Tables): (e: string)
    requires HasAccepted(t)
    ensures IsAccepted(t, e)
  {
    var e :| IsAccepted(t, e); e
  }

  /** recover_stale_accepted_ring */
  ghost function Recovered(t: Tables): Tables {
    if HasAccepted(t) then Apply(t, RecoverAccepted(AcceptedRing(t))) else t
  }

  // --------------------------------------------------------------------------------- invariants

  /** At most one ring is not ended. */
  ghost predicate OneActive(t: Tables) {
    forall e, f | IsActive(t, e) && IsActive(t, f) :: e == f
  }

  /** Rings belong to events, and the queued presses of a ring are exactly numbers 2..pressCount. */
  ghost predicate PressesComplete(t: Tables) {
    && (forall e | e in t.rings :: e in t.events && t.events[e].kind == Ring && t.rings[e].pressCount >= 1)
    && (forall k | k in t.presses :: k.eventId in t.rings && 2 <= k.seqNo <= t.rings[k.eventId].pressCount)
    && (forall e, n: nat | e in t.rings && 2 <= n <= t.rings[e].pressCount :: PressKey(e, n) in t.presses)
  }

  /** The foreign keys and unique columns of events, recordings and segments. */
  ghost predicate KeysHold(t: Tables) {
    && (forall e | e in t.events :: t.events[e].recordingId in t.recordings)
    && (forall i | 0 <= i < |t.segments| :: t.segments[i].recordingId in t.recordings)
    && (forall i, j | 0 <= i < j < |t.segments| ::
          && t.segments[i].segmentId != t.segments[j].segmentId
          && (t.segments[i].recordingId == t.segments[j].recordingId ==> t.segments[i].index != t.segments[j].index))
  }

  function CountOf(segments: seq<SegmentRow>, r: string): nat {
    if segments == [] then 0
    else CountOf(segments[..|segments| - 1], r) + if segments[|segments| - 1].recordingId == r then 1 else 0
  }

  function TotalOf(segments: seq<SegmentRow>, r: string): int {
    if segments == [] then 0
    else TotalOf(segments[..|segments| - 1], r)
         + if segments[|segments| - 1].recordingId == r then segments[|segments| - 1].durationMs else 0
  }

  /** The stored totals of every recording are those of its segment rows. */
  ghost predicate AccountsHold(t: Tables) {
    forall r | r in t.recordings ::
      && t.recordings[r].segmentCount == CountOf(t.segments, r)
      && t.recordings[r].totalMs == TotalOf(t.segments, r)
  }

  ghost predicate NumberedUpTo(id: string, n: nat) {
    exists stamp: string, k: nat :: 1 <= k <= n && id == FormatEventId(stamp, k)
  }

  /** Every event id was made from a sequence number already used. */
  ghost predicate IdsNumbered(t: Tables) {
    forall e | e in t.events :: NumberedUpTo(e, t.sequence)
  }

  ghost predicate Ok(t: Tables) {
    OneActive(t) && PressesComplete(t) && KeysHold(t) && AccountsHold(t) && IdsNumbered(t)
  }

  /** A fresh id is never taken, whatever the clock says: ids of different transactions differ. */
  lemma FreshIdIsNew(t: Tables, stamp: string)
    requires IdsNumbered(t)
    ensures FormatEventId(stamp, t.sequence + 1) !in t.events
  {
    var id := FormatEventId(stamp, t.sequence + 1);
    if id in t.events {
      var stamp', k :| 1 <= k <= t.sequence && id == FormatEventId(stamp', k);
      EventIdInjective(stamp, t.sequence + 1, stamp', k);
    }
  }

  /** Only a first press and a remote state command can make a ring active. */
  lemma ActivatedBy(t: Tables, op: Op, e: string)
    requires Allowed(t, op) && IsActive(Effect(t, op), e)
    ensures
      || IsActive(t, e)
      || (op.FirstPress? && e == FormatEventId(op.stamp, t.sequence + 1))
      || (op.SetRingState? && e == op.eventId && op.state != Ended)
  {
    hide FormatEventId;
  }

  lemma ApplyKeepsOneActive(t: Tables, op: Op)
    requires OneActive(t)
    ensures OneActive(Apply(t, op))
  {
    hide FormatEventId, Effect;
    var t' := Apply(t, op);
    if !Allowed(t, op) {
      return;
    }
    forall e, f | IsActive(t', e) && IsActive(t', f) ensures e == f {
      ActivatedBy(t, op, e);
      ActivatedBy(t, op, f);
    }
  }

  lemma FirstPressKeepsPresses(t: Tables, op: Op)
    requires PressesComplete(t) && op.FirstPress? && Allowed(t, op)
    ensures PressesComplete(Effect(t, op))
  {
    hide FormatEventId;
    var t' := Effect(t, op);
    var id := FormatEventId(op.stamp, t.sequence + 1);
    assert t'.presses == t.presses;
    forall e | e in t'.rings
      ensures e in t'.events && t'.events[e].kind == Ring && t'.rings[e].pressCount >= 1
      ensures e != id ==> e in t.rings && t'.rings[e] == t.rings[e]
    {
    }
  }

  lemma RepressKeepsPresses(t: Tables, op: Op)
    requires PressesComplete(t) && op.Repress? && Allowed(t, op)
    ensures PressesComplete(Effect(t, op))
  {
    hide FormatEventId;
    var t' := Effect(t, op);
    var n := t.rings[op.eventId].pressCount + 1;
    forall k | k in t'.presses ensures k.eventId in t'.rings && 2 <= k.seqNo <= t'.rings[k.eventId].pressCount {
      assert k == PressKey(op.eventId, n) || k in t.presses;
    }
    forall e, m: nat | e in t'.rings && 2 <= m <= t'.rings[e].pressCount ensures PressKey(e, m) in t'.presses {
      assert (e == op.eventId && m == n) || PressKey(e, m) in t.presses;
    }
  }

  /** The other transactions change neither which rings and presses there are nor any press count. */
  ghost predicate SamePresses(t: Tables, t': Tables) {
    && t'.presses.Keys == t.presses.Keys && t'.rings.Keys == t.rings.Keys && t.events.Keys <= t'.events.Keys
    && (forall e | e in t.rings :: t'.rings[e].pressCount == t.rings[e].pressCount)
    && (forall e | e in t.events :: t'.events[e].kind == t.events[e].kind)
  }

  lemma OthersSamePresses(t: Tables, op: Op)
    requires !op.FirstPress? && !op.Repress? && Allowed(t, op)
    ensures SamePresses(t, Effect(t, op))
  {
    hide FormatEventId, HasSegment, HasIndex, Closed, SetSha, NoOtherActive;
  }

  lemma SamePressesKeeps(t: Tables, t': Tables)
    requires PressesComplete(t) && SamePresses(t, t')
    ensures PressesComplete(t')
  {
    forall k | k in t'.presses ensures k.eventId in t'.rings && 2 <= k.seqNo <= t'.rings[k.eventId].pressCount {
      assert k in t.presses.Keys && k.eventId in t.rings.Keys;
    }
    forall e | e in t'.rings ensures e in t'.events && t'.events[e].kind == Ring && t'.rings[e].pressCount >= 1 {
      assert e in t.rings.Keys && e in t.events.Keys;
    }
    forall e, n: nat | e in t'.rings && 2 <= n <= t'.rings[e].pressCount ensures PressKey(e, n) in t'.presses {
      assert e in t.rings.Keys && PressKey(e, n) in t.presses.Keys;
    }
  }

  lemma ApplyKeepsPresses(t: Tables, op: Op)
    requires PressesComplete(t)
    ensures PressesComplete(Apply(t, op))
  {
    hide FormatEventId, Effect, Allowed, SamePresses, PressesComplete;
    if Allowed(t, op) {
      if op.FirstPress? {
        FirstPressKeepsPresses(t, op);
      } else if op.Repress? {
        RepressKeepsPresses(t, op);
      } else {
        OthersSamePresses(t, op);
        SamePressesKeeps(t, Effect(t, op));
      }
    }
  }

  lemma AppendKeepsKeys(t: Tables, op: Op)
    requires KeysHold(t) && op.AppendSegment? && Allowed(t, op)
    ensures KeysHold(Effect(t, op))
  {
    var t' := Effect(t, op);
    forall i | 0 <= i < |t.segments| ensures t.segments[i].segmentId != op.segmentId {
      assert !HasSegment(t, op.segmentId);
    }
    forall i | 0 <= i < |t.segments| && t.segments[i].recordingId == op.recordingId
      ensures t.segments[i].index != op.index
    {
      assert !HasIndex(t, op.recordingId, op.index);
    }
  }

  lemma ApplyKeepsKeys(t: Tables, op: Op)
    requires KeysHold(t)
    ensures KeysHold(Apply(t, op))
  {
    hide FormatEventId, HasSegment, HasIndex, NoOtherActive;
    if op.AppendSegment? && Allowed(t, op) {
      hide Effect;
      AppendKeepsKeys(t, op);
    }
  }

  lemma {:induction false} RehashedAccounts(segments: seq<SegmentRow>, other: seq<SegmentRow>, r: string)
    requires |segments| == |other|
    requires forall i | 0 <= i < |segments| ::
      segments[i].recordingId == other[i].recordingId && segments[i].durationMs == other[i].durationMs
    ensures CountOf(segments, r) == CountOf(other, r) && TotalOf(segments, r) == TotalOf(other, r)
  {
    if segments != [] {
      RehashedAccounts(segments[..|segments| - 1], other[..|other| - 1], r);
    }
  }

  lemma {:induction false} NoRowsNoCount(segments: seq<SegmentRow>, r: string)
    requires forall i | 0 <= i < |segments| :: segments[i].recordingId != r
    ensures CountOf(segments, r) == 0 && TotalOf(segments, r) == 0
  {
    if segments != [] {
      NoRowsNoCount(segments[..|segments| - 1], r);
    }
  }

  lemma AppendKeepsAccounts(t: Tables, op: Op)
    requires AccountsHold(t) && op.AppendSegment? && Allowed(t, op)
    ensures AccountsHold(Effect(t, op))
  {
    hide HasSegment, HasIndex;
    var t' := Effect(t, op);
    assert t'.segments[..|t'.segments| - 1] == t.segments;
  }

  lemma ApplyKeepsAccounts(t: Tables, op: Op)
    requires KeysHold(t) && AccountsHold(t)
    ensures AccountsHold(Apply(t, op))
  {
    hide FormatEventId, HasSegment, HasIndex, NoOtherActive;
    var t' := Apply(t, op);
    if !Allowed(t, op) {
      return;
    }
    if op.AppendSegment? {
      AppendKeepsAccounts(t, op);
      return;
    }
    forall r | r in t'.recordings
      ensures t'.recordings[r].segmentCount == CountOf(t'.segments, r)
      ensures t'.recordings[r].totalMs == TotalOf(t'.segments, r)
    {
      if r !in t.recordings {
        NoRowsNoCount(t.segments, r);
      }
      if op.SetSha256? {
        RehashedAccounts(t.segments, t'.segments, r);
      }
    }
  }

  lemma ApplyKeepsIds(t: Tables, op: Op)
    requires IdsNumbered(t)
    ensures IdsNumbered(Apply(t, op))
  {
    hide FormatEventId;
    var t' := Apply(t, op);
    forall e | e in t'.events ensures NumberedUpTo(e, t'.sequence) {
      if e in t.events {
        var stamp, k :| 1 <= k <= t.sequence && e == FormatEventId(stamp, k);
      } else {
        assert e == FormatEventId(op.stamp, t'.sequence);
      }
    }
  }

  /** Ids never collide, so a new event is refused only for its recording or for another active ring. */
  lemma NewEventAllowedIff(t: Tables, stamp: string, r: string, newRecording: bool, at: int, path: string)
    requires Ok(t)
    ensures Allowed(t, CreatePerson(stamp, r, at, path)) <==> r in t.recordings
    ensures Allowed(t, FirstPress(stamp, r, newRecording, at, path)) <==>
      (forall x :: !IsActive(t, x)) && newRecording == (r !in t.recordings)
  {
    hide FormatEventId;
    FreshIdIsNew(t, stamp);
    var id := FormatEventId(stamp, t.sequence + 1);
    assert id !in t.rings;
    if NoOtherActive(t, id) {
      assert forall x :: !IsActive(t, x);
    } else {
      var x :| x in t.rings && x != id && t.rings[x].state != Ended;
      assert IsActive(t, x);
    }
  }

  lemma ApplyKeepsOk(t: Tables, op: Op)
    requires Ok(t)
    ensures Ok(Apply(t, op))
  {
    hide OneActive, PressesComplete, KeysHold, AccountsHold, IdsNumbered, Apply;
    ApplyKeepsOneActive(t, op);
    ApplyKeepsPresses(t, op);
    ApplyKeepsKeys(t, op);
    ApplyKeepsAccounts(t, op);
    ApplyKeepsIds(t, op);
  }

  /** Every reachable store satisfies all the invariants. */
  lemma {:induction false} RunIsOk(ops: seq<Op>)
    ensures Ok(Run(ops))
  {
    if ops != [] {
      RunIsOk(ops[..|ops| - 1]);
      ApplyKeepsOk(Run(ops[..|ops| - 1]), ops[|ops| - 1]);
    }
  }

  lemma OkOneActive(t: Tables)
    requires Ok(t)
    ensures OneActive(t)
  {
  }

  /** The lookups' LIMIT 1 misses nothing: after a check at time `at` no ring is overdue. */
  lemma NoneDueAfterCheck(t: Tables, at: int)
    requires OneActive(t)
    ensures !HasDue(CheckExpiry(t, at), at)
  {
    var t' := CheckExpiry(t, at);
    forall e ensures !IsDue(t', e, at) {
      if IsDue(t, e, at) {
        assert IsActive(t, e) && IsActive(t, DueRing(t, at));
      }
    }
  }

  /** After the recovery at startup no ring is accepted. */
  lemma NoneAcceptedAfterRecovery(t: Tables)
    requires OneActive(t)
    ensures !HasAccepted(Recovered(t))
  {
    var t' := Recovered(t);
    forall e ensures !IsAccepted(t', e) {
      if IsAccepted(t, e) {
        assert IsActive(t, e) && IsActive(t, AcceptedRing(t));
      }
    }
  }

  // --------------------------------------------------------------------------------- whole runs

  /** The tables after the first k transactions of a run. */
  function After(ops: seq<Op>, k: nat): Tables
    requires k <= |ops|
  {
    Run(ops[..k])
  }

  lemma AfterNext(ops: seq<Op>, k: nat)
    requires k < |ops|
    ensures After(ops, k + 1) == Apply(After(ops, k), ops[k])
  {
    assert ops[..k + 1][..k] == ops[..k];
  }

  /** The rows of one recording, in the order they were written and without their hashes. */
  function RowsOf(segments: seq<SegmentRow>, r: string): seq<SegmentRow> {
    if segments == [] then []
    else
      var row := segments[|segments| - 1];
      RowsOf(segments[..|segments| - 1], r) + if row.recordingId == r then [row.(sha256 := "")] else []
  }

  lemma {:induction false} RehashedRows(segments: seq<SegmentRow>, id: string, sha: string, r: string)
    ensures RowsOf(SetSha(segments, id, sha), r) == RowsOf(segments, r)
  {
    if segments != [] {
      RehashedRows(segments[..|segments| - 1], id, sha, r);
      var s := SetSha(segments, id, sha);
      assert s[..|s| - 1] == SetSha(segments[..|segments| - 1], id, sha);
    }
  }

  predicate IsTerminal(t: Tables, r: string) { r in t.recordings && t.recordings[r].status != Recording }

  /** No transaction changes a terminal recording: not its status, its totals or its segment rows. */
  lemma TerminalKept(t: Tables, op: Op, r: string)
    requires IsTerminal(t, r)
    ensures IsTerminal(Apply(t, op), r) && Apply(t, op).recordings[r] == t.recordings[r]
    ensures RowsOf(Apply(t, op).segments, r) == RowsOf(t.segments, r)
  {
    hide FormatEventId, HasSegment, HasIndex, NoOtherActive, RowsOf, SetSha;
    if Allowed(t, op) {
      if op.SetSha256? {
        RehashedRows(t.segments, op.segmentId, op.sha256, r);
      } else if op.AppendSegment? {
        OtherRecordingsRow(t.segments, Apply(t, op).segments, r);
      }
    }
  }

  lemma OtherRecordingsRow(segments: seq<SegmentRow>, more: seq<SegmentRow>, r: string)
    requires |more| == |segments| + 1 && more[..|segments|] == segments && more[|segments|].recordingId != r
    ensures RowsOf(more, r) == RowsOf(segments, r)
  {
  }

  lemma {:induction false} TerminalForever(ops: seq<Op>, k: nat, j: nat, r: string)
    requires k <= j <= |ops| && IsTerminal(After(ops, k), r)
    ensures IsTerminal(After(ops, j), r) && After(ops, j).recordings[r] == After(ops, k).recordings[r]
    ensures RowsOf(After(ops, j).segments, r) == RowsOf(After(ops, k).segments, r)
    decreases j
  {
    hide IsTerminal, RowsOf, After, Apply;
    if k < j {
      TerminalForever(ops, k, j - 1, r);
      AfterNext(ops, j - 1);
      TerminalKept(After(ops, j - 1), ops[j - 1], r);
    }
  }

  /** A reopened store has no open recording; those it had are now failed, with every total kept. */
  lemma ReopenClosesAll(t: Tables, r: string)
    requires r in t.recordings
    ensures var t' := Apply(t, Reopen);
      && IsTerminal(t', r) && t'.segments == t.segments
      && t'.recordings[r].status == (if t.recordings[r].status == Recording then Failed else t.recordings[r].status)
      && t'.recordings[r].segmentCount == t.recordings[r].segmentCount
      && t'.recordings[r].totalMs == t.recordings[r].totalMs
  {
  }

  lemma CountersGrow(t: Tables, op: Op, date: string)
    ensures t.sequence <= Apply(t, op).sequence && LastClip(t, date) <= LastClip(Apply(t, op), date)
  {
    hide FormatEventId, HasSegment, HasIndex, Closed, SetSha, NoOtherActive;
  }

  lemma {:induction false} CountersNeverFall(ops: seq<Op>, k: nat, j: nat, date: string)
    requires k <= j <= |ops|
    ensures After(ops, k).sequence <= After(ops, j).sequence
    ensures LastClip(After(ops, k), date) <= LastClip(After(ops, j), date)
    decreases j
  {
    hide Run, Apply, LastClip;
    if k < j {
      CountersNeverFall(ops, k, j - 1, date);
      AfterNext(ops, j - 1);
      CountersGrow(After(ops, j - 1), ops[j - 1], date);
    }
  }

  predicate Creates(op: Op) { op.CreatePerson? || op.FirstPress? }

  predicate Commits(ops: seq<Op>, k: nat)
    requires k < |ops|
  {
    Allowed(After(ops, k), ops[k])
  }

  function CreatedId(ops: seq<Op>, k: nat): string
    requires k < |ops| && Creates(ops[k])
  {
    FormatEventId(ops[k].stamp, After(ops, k).sequence + 1)
  }

  /** Over any run, whatever the clock readings, no two committed events have one id. */
  lemma EventIdsDistinct(ops: seq<Op>, j: nat, k: nat)
    requires j < k < |ops| && Creates(ops[j]) && Creates(ops[k]) && Commits(ops, j)
    ensures CreatedId(ops, j) != CreatedId(ops, k)
  {
    hide FormatEventId, NoOtherActive;
    AfterNext(ops, j);
    CountersNeverFall(ops, j + 1, k, "");
    if CreatedId(ops, j) == CreatedId(ops, k) {
      EventIdInjective(ops[j].stamp, After(ops, j).sequence + 1, ops[k].stamp, After(ops, k).sequence + 1);
    }
  }

  /** Over any run no clip path is allocated twice. */
  lemma ClipsDistinct(ops: seq<Op>, j: nat, k: nat, a: LocalTime, b: LocalTime)
    requires j < k < |ops| && ops[j].AllocateClip? && ops[k].AllocateClip?
    requires Commits(ops, j) && Commits(ops, k)
    requires a.Valid() && b.Valid() && ops[j].date == a.date && ops[k].date == b.date
    ensures ClipRelativePath(a, ops[j].sequence) != ClipRelativePath(b, ops[k].sequence)
  {
    hide ClipRelativePath;
    AfterNext(ops, j);
    CountersNeverFall(ops, j + 1, k, b.date);
    if ClipRelativePath(a, ops[j].sequence) == ClipRelativePath(b, ops[k].sequence) {
      ClipPathInjective(a, ops[j].sequence, b, ops[k].sequence);
    }
  }
}
