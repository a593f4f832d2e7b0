/** class EventStore of src/events/event_store.cpp. A method runs its SQL statements one by one on the
    tables; `fails(i)` says whether the database reports an error for statement i, and a constraint that
    does not hold makes the statement fail too. A failed transaction is rolled back. */
module EventStore {
  import opened EventPaths
  import opened Options
  import opened StoreTables

  /** What record_ring_press returns. */
  datatype RingPress = RingPress(eventId: string, seqNo: nat, state: RingState, initial: bool)

  ghost predicate NoFault(fails: nat -> bool) { forall i :: !fails(i) }

  /** All or nothing, and nothing only when the database failed or the constraints forbid the change. */
  ghost predicate Outcome(before: Tables, op: Op, ok: bool, fails: nat -> bool, after: Tables) {
    if ok then Allowed(before, op) && after == Apply(before, op)
    else after == before && (NoFault(fails) ==> !Allowed(before, op))
  }

  lemma OnlyActive(t: Tables, e: string)
    requires Ok(t) && IsActive(t, e)
    ensures HasActive(t) && ActiveRing(t) == e
  {
  }

  lemma OnlyDue(t: Tables, e: string, at: int)
    requires Ok(t) && IsDue(t, e, at)
    ensures HasDue(t, at) && DueRing(t, at) == e
  {
    assert IsActive(t, e) && IsActive(t, DueRing(t, at));
  }

  lemma OnlyAccepted(t: Tables, e: string)
    requires Ok(t) && IsAccepted(t, e)
    ensures HasAccepted(t) && AcceptedRing(t) == e
  {
    assert IsActive(t, e) && IsActive(t, AcceptedRing(t));
  }

  /** Still ringing 40 s after the last press or 120 s after the first. */
  ghost predicate LapsedRinging(ring: RingRow, at: int) {
    ring.state == Ringing && (at - ring.last >= 40000 || at - ring.first >= 120000)
  }

  lemma SegmentsOfId(t: Tables, id: string)
    requires Ok(t)
    ensures forall i, j | 0 <= i < |t.segments| && 0 <= j < |t.segments| ::
      t.segments[i].segmentId == id == t.segments[j].segmentId ==> i == j
  {
  }

  /** The next press number of a ring is never taken. */
  lemma NextPressIsFree(t: Tables, e: string)
    requires Ok(t) && e in t.rings
    ensures PressKey(e, t.rings[e].pressCount + 1) !in t.presses
  {
  }

  /** A ring is active, or a new event can be stored for the press. */
  ghost predicate MayPress(t: Tables, device: string, recordingId: string, at: int) {
    || (exists e :: e in t.rings && t.rings[e].state != Ended)
    || (if recordingId == "" then RecordingId(device, at) !in t.recordings else recordingId in t.recordings)
  }

  /** What a press leaves in the tables: one more press of an active ring with its queue row, or, when every
      ring has ended, a new event with its ring row and, if the caller has none, its recording row. */
  ghost predicate PressRecorded(before: Tables, stamp: string, device: string, recordingId: string, at: int,
                                path: string, press: Option<RingPress>, after: Tables) {
    if press.None? then after == before
    else if press.value.initial then
      var id, r := press.value.eventId, if recordingId == "" then RecordingId(device, at) else recordingId;
      && press == Some(RingPress(FormatEventId(stamp, before.sequence + 1), 1, Ringing, true))
      && (forall e | e in before.rings :: before.rings[e].state == Ended)
      && after == before.(sequence := before.sequence + 1,
                          events := before.events[id := EventRow(Ring, r, at, path, "", 0)],
                          rings := before.rings[id := RingRow(Ringing, 1, at, at)],
                          recordings := if recordingId == ""
                            then before.recordings[r := RecordingRow(Recording, at, None, 0, 0)] else before.recordings)
    else
      var e, n := press.value.eventId, press.value.seqNo;
      && e in before.rings && before.rings[e].state == press.value.state != Ended && n == before.rings[e].pressCount + 1
      && after == before.(rings := before.rings[e := before.rings[e].(pressCount := n, last := at)],
                          presses := before.presses[PressKey(e, n) := PressRow(at, false)])
  }

  // What the transactions of several statements store, row by row, and when they may.

  lemma PersonStored(t: Tables, stamp: string, r: string, at: int, path: string)
    requires Ok(t)
    ensures var op, id := CreatePerson(stamp, r, at, path), FormatEventId(stamp, t.sequence + 1);
      && id !in t.events && (Allowed(t, op) <==> r in t.recordings)
      && (r in t.recordings ==>
            Apply(t, op) == t.(sequence := t.sequence + 1,
                               events := t.events[id := EventRow(Person, r, at, path, "", 0)]))
  {
    FreshIdIsNew(t, stamp);
    hide FormatEventId, Ok;
  }

  lemma PressStored(t: Tables, e: string, at: int)
    requires Ok(t) && IsActive(t, e)
    ensures var ring, n := t.rings[e], t.rings[e].pressCount + 1;
      && PressKey(e, n) !in t.presses && Allowed(t, Repress(e, at))
      && Apply(t, Repress(e, at)) == t.(rings := t.rings[e := ring.(pressCount := n, last := at)],
                                        presses := t.presses[PressKey(e, n) := PressRow(at, false)])
  {
    NextPressIsFree(t, e);
    hide Ok;
  }

  lemma RingStored(t: Tables, stamp: string, r: string, newRecording: bool, at: int, path: string)
    requires Ok(t)
    ensures var op, id := FirstPress(stamp, r, newRecording, at, path), FormatEventId(stamp, t.sequence + 1);
      && id !in t.events && id !in t.rings
      && (Allowed(t, op) <==>
            (r in t.recordings) == !newRecording && forall e | e in t.rings :: t.rings[e].state == Ended)
      && (Allowed(t, op) ==>
            Apply(t, op) == t.(sequence := t.sequence + 1,
                               events := t.events[id := EventRow(Ring, r, at, path, "", 0)],
                               rings := t.rings[id := RingRow(Ringing, 1, at, at)],
                               recordings := if newRecording
                                 then t.recordings[r := RecordingRow(Recording, at, None, 0, 0)] else t.recordings))
  {
    FreshIdIsNew(t, stamp);
    assert forall e | e in t.rings :: e in t.events;
    hide FormatEventId, Ok;
  }

  class EventStore {
    var tables: Tables

    ghost predicate Valid()
      reads this
    {
      Ok(tables)
    }

    constructor ()
      ensures Valid() && tables == EMPTY
    {
      tables := EMPTY;
      new;
      RunIsOk([]);
    }

    /** The part of initialize_schema that changes rows: recordings left open are closed as failed. */
    method Reopen(fails: nat -> bool) returns (ok: bool)
      requires Valid()
      modifies this
      ensures Valid() && Outcome(old(tables), Op.Reopen, ok, fails, tables)
      ensures tables == old(tables).(recordings := tables.recordings)
      ensures tables.recordings.Keys == old(tables).recordings.Keys
      ensures forall r | r in tables.recordings ::
        var row := old(tables).recordings[r];
        tables.recordings[r]
          == if ok && row.status == Recording && row.endedAt.None?
             then row.(status := Failed, endedAt := Some(row.startedAt))
             else if ok && row.status == Recording then row.(status := Failed) else row
      ensures NoFault(fails) ==> ok
    {
      hide Ok;
      if fails(0) {
        return false;
      }
      ApplyKeepsOk(tables, Op.Reopen);
      tables := tables.(recordings := map r | r in tables.recordings :: Closed(tables.recordings[r]));
      return true;
    }

    method CreatePersonEvent(stamp: string, recordingId: string, at: int, path: string, fails: nat -> bool)
        returns (id: Option<string>)
      requires Valid()
      modifies this
      ensures Valid()
      ensures Outcome(old(tables), CreatePerson(stamp, recordingId, at, path), id.Some?, fails, tables)
      ensures id.Some? ==> id == Some(FormatEventId(stamp, old(tables).sequence + 1)) && id.value !in old(tables).events
      ensures id.Some? ==>
        tables == old(tables).(sequence := old(tables).sequence + 1,
                               events := old(tables).events[id.value := EventRow(Person, recordingId, at, path, "", 0)])
      ensures id.None? ==> tables == old(tables)
      ensures NoFault(fails) ==> (id.Some? <==> recordingId in old(tables).recordings)
    {
      PersonStored(tables, stamp, recordingId, at, path);
      hide Ok, FormatEventId, Allowed, Apply;
      ghost var op := CreatePerson(stamp, recordingId, at, path);
      ApplyKeepsOk(tables, op);
      if fails(0) {
        return None;
      }
      var saved := tables;
      if fails(1) {
        tables := saved;
        return None;
      }
      tables := tables.(sequence := tables.sequence + 1);
      if fails(2) {
        tables := saved;
        return None;
      }
      var eventId := FormatEventId(stamp, tables.sequence);
      if fails(3) || eventId in tables.events || recordingId !in tables.recordings {
        tables := saved;
        return None;
      }
      tables := tables.(events := tables.events[eventId := EventRow(Person, recordingId, at, path, "", 0)]);
      if fails(4) {
        tables := saved;
        return None;
      }
      return Some(eventId);
    }

    /** SELECT ... FROM ring_events WHERE state <> 'ended' LIMIT 1 */
    method FindActive() returns (e: Option<string>)
      ensures e.Some? ==> IsActive(tables, e.value)
      ensures e.None? ==> !HasActive(tables)
    {
      if x :| x in tables.rings && tables.rings[x].state != Ended {
        return Some(x);
      }
      assert forall x :: !IsActive(tables, x);
      return None;
    }

    /** Another press of the active ring. */
    method AddPress(e: string, at: int, fails: nat -> bool) returns (press: Option<RingPress>)
      requires Valid() && IsActive(tables, e)
      modifies this
      ensures Valid() && Outcome(old(tables), Repress(e, at), press.Some?, fails, tables)
      ensures press.Some? ==>
        press == Some(RingPress(e, old(tables).rings[e].pressCount + 1, old(tables).rings[e].state, false))
      ensures press.Some? ==>
        var ring, n := old(tables).rings[e], old(tables).rings[e].pressCount + 1;
        tables == old(tables).(rings := old(tables).rings[e := ring.(pressCount := n, last := at)],
                               presses := old(tables).presses[PressKey(e, n) := PressRow(at, false)])
      ensures press.None? ==> tables == old(tables)
      ensures NoFault(fails) ==> press.Some?
    {
      PressStored(tables, e, at);
      hide Ok, Allowed, Apply;
      ApplyKeepsOk(tables, Repress(e, at));
      var saved := tables;
      var row := tables.rings[e];
      var n := row.pressCount + 1;
      if fails(3) {
        tables := saved;
        return None;
      }
      tables := tables.(rings := tables.rings[e := row.(pressCount := n, last := at)]);
      if fails(4) || PressKey(e, n) in tables.presses {
        tables := saved;
        return None;
      }
      tables := tables.(presses := tables.presses[PressKey(e, n) := PressRow(at, false)]);
      if fails(5) {
        tables := saved;
        return None;
      }
      return Some(RingPress(e, n, row.state, false));
    }

    /** A new ring event, with a recording row of its own when the caller has none. */
    method AddRing(stamp: string, recordingId: string, newRecording: bool, at: int, path: string, fails: nat -> bool)
        returns (press: Option<RingPress>)
      requires Valid()
      modifies this
      ensures Valid()
      ensures Outcome(old(tables), FirstPress(stamp, recordingId, newRecording, at, path), press.Some?, fails, tables)
      ensures press.Some? ==>
        press == Some(RingPress(FormatEventId(stamp, old(tables).sequence + 1), 1, Ringing, true))
      ensures press.Some? ==>
        var id := press.value.eventId;
        var recordings := old(tables).recordings;
        && id !in old(tables).events && id !in old(tables).rings
        && tables == old(tables).(sequence := old(tables).sequence + 1,
                                  events := old(tables).events[id := EventRow(Ring, recordingId, at, path, "", 0)],
                                  rings := old(tables).rings[id := RingRow(Ringing, 1, at, at)],
                                  recordings := if newRecording
                                    then recordings[recordingId := RecordingRow(Recording, at, None, 0, 0)]
                                    else recordings)
      ensures press.None? ==> tables == old(tables)
      ensures NoFault(fails) ==>
        (press.Some? <==>
           && (recordingId in old(tables).recordings) == !newRecording
           && forall e | e in old(tables).rings :: old(tables).rings[e].state == Ended)
    {
      RingStored(tables, stamp, recordingId, newRecording, at, path);
      hide Ok, FormatEventId, Allowed, Apply;
      ApplyKeepsOk(tables, FirstPress(stamp, recordingId, newRecording, at, path));
      var saved := tables;
      if newRecording {
        if fails(3) || recordingId in tables.recordings {
          tables := saved;
          return None;
        }
        tables := WithRecording(tables, recordingId, at);
      }
      if fails(4) {
        tables := saved;
        return None;
      }
      tables := tables.(sequence := tables.sequence + 1);
      if fails(5) {
        tables := saved;
        return None;
      }
      var id := FormatEventId(stamp, tables.sequence);
      if fails(6) || id in tables.events || recordingId !in tables.recordings {
        tables := saved;
        return None;
      }
      tables := tables.(events := tables.events[id := EventRow(Ring, recordingId, at, path, "", 0)]);
      if fails(7) || id in tables.rings || !NoOtherActive(tables, id) {
        tables := saved;
        return None;
      }
      tables := tables.(rings := tables.rings[id := RingRow(Ringing, 1, at, at)]);
      if fails(8) {
        tables := saved;
        return None;
      }
      return Some(RingPress(id, 1, Ringing, true));
    }

    /** record_ring_press. When the caller names no recording, one is started under the id made from the
        device and the time. An error while stepping the lookup reads as "no active ring"; the unique
        index then rejects the second active ring. */
    method RecordRingPress(stamp: string, device: string, recordingId: string, at: int, path: string,
                           fails: nat -> bool)
        returns (press: Option<RingPress>)
      requires Valid()
      modifies this
      ensures Valid()
      ensures var effective := if recordingId == "" then RecordingId(device, at) else recordingId;
        Outcome(old(tables), PressOp(old(tables), stamp, effective, recordingId == "", at, path),
                press.Some?, fails, tables)
      ensures press.Some? ==> press.value.initial == !HasActive(old(tables))
      ensures press.Some? && !press.value.initial ==>
        && press.value.eventId == ActiveRing(old(tables))
        && press.value.seqNo == old(tables).rings[press.value.eventId].pressCount + 1
      ensures press.Some? && press.value.initial ==>
        press.value.eventId == FormatEventId(stamp, old(tables).sequence + 1) && press.value.seqNo == 1
      ensures PressRecorded(old(tables), stamp, device, recordingId, at, path, press, tables)
      ensures NoFault(fails) ==> (press.Some? <==> MayPress(old(tables), device, recordingId, at))
    {
      hide Ok, FormatEventId, RecordingId, Apply;
      if fails(0) || fails(1) {
        return None;
      }
      assert forall e | e in tables.rings && tables.rings[e].state != Ended :: IsActive(tables, e);
      var active := FindActive();
      if fails(2) {
        active := None;
      }
      if active.Some? {
        OnlyActive(tables, active.value);
        press := AddPress(active.value, at, fails);
      } else {
        var effective := if recordingId == "" then RecordingId(device, at) else recordingId;
        OneMoreActive(tables, stamp, effective, recordingId == "", at, path);
        press := AddRing(stamp, effective, recordingId == "", at, path, fails);
      }
    }

    /** expire_open_ring */
    method ExpireOpenRing(at: int, fails: nat -> bool) returns (ended: Option<string>)
      requires Valid()
      modifies this
      ensures Valid()
      ensures ended.Some? ==> IsDue(old(tables), ended.value, at) && tables == Apply(old(tables), Expire(ended.value, at))
      ensures ended.None? ==> tables == old(tables)
      ensures NoFault(fails) ==> tables == CheckExpiry(old(tables), at) && !HasDue(tables, at)
      ensures ended.Some? ==>
        var e := ended.value;
        && e in old(tables).rings && LapsedRinging(old(tables).rings[e], at)
        && tables == old(tables).(rings := old(tables).rings[e := old(tables).rings[e].(state := Ended)])
      ensures NoFault(fails) ==>
        (ended.Some? <==> exists e :: e in old(tables).rings && LapsedRinging(old(tables).rings[e], at))
    {
      hide Ok;
      OkOneActive(tables);
      NoneDueAfterCheck(tables, at);
      if fails(0) || fails(1) {
        return None;
      }
      if e :| e in tables.rings && tables.rings[e].state == Ringing && at >= Deadline(tables.rings[e]) {
        OnlyDue(tables, e, at);
        ApplyKeepsOk(tables, Expire(e, at));
        if fails(2) || fails(3) || fails(4) {
          return None;
        }
        tables := WithRingState(tables, e, Ended);
        return Some(e);
      }
      assert forall e :: !IsDue(tables, e, at);
      return None;
    }

    /** recover_stale_accepted_ring */
    method RecoverStaleAcceptedRing(fails: nat -> bool) returns (ok: bool, recovered: Option<string>)
      requires Valid()
      modifies this
      ensures Valid()
      ensures ok ==> tables == Recovered(old(tables)) && !HasAccepted(tables)
      ensures ok ==> recovered == if HasAccepted(old(tables)) then Some(AcceptedRing(old(tables))) else None
      ensures !ok ==> tables == old(tables) && recovered == None && !NoFault(fails)
      ensures recovered.Some? ==>
        var e := recovered.value;
        && e in old(tables).rings && old(tables).rings[e].state == Accepted
        && tables == old(tables).(rings := old(tables).rings[e := old(tables).rings[e].(state := Ended)])
      ensures recovered.None? ==> tables == old(tables)
      ensures ok ==> forall e | e in tables.rings :: tables.rings[e].state != Accepted
    {
      hide Ok;
      OkOneActive(tables);
      NoneAcceptedAfterRecovery(tables);
      if fails(0) || fails(1) || fails(2) {
        return false, None;
      }
      if e :| e in tables.rings && tables.rings[e].state == Accepted {
        OnlyAccepted(tables, e);
        ApplyKeepsOk(tables, RecoverAccepted(e));
        if fails(3) || fails(4) {
          return false, None;
        }
        tables := WithRingState(tables, e, Ended);
        assert forall x | x in tables.rings :: tables.rings[x].state == Accepted ==> IsAccepted(tables, x);
        return true, Some(e);
      }
      assert forall e :: !IsAccepted(tables, e);
      if fails(3) {
        return false, None;
      }
      return true, None;
    }

    method MarkRingPressReported(e: string, n: nat, fails: nat -> bool) returns (ok: bool)
      requires Valid()
      modifies this
      ensures Valid() && Outcome(old(tables), MarkPressReported(e, n), ok, fails, tables)
      ensures ok ==>
        var key := PressKey(e, n);
        && key in old(tables).presses
        && tables == old(tables).(presses := old(tables).presses[key := old(tables).presses[key].(reported := true)])
      ensures !ok ==> tables == old(tables)
      ensures NoFault(fails) ==> (ok <==> PressKey(e, n) in old(tables).presses)
    {
      hide Ok;
      ApplyKeepsOk(tables, MarkPressReported(e, n));
      var key := PressKey(e, n);
      if fails(0) || key !in tables.presses {
        return false;
      }
      tables := tables.(presses := tables.presses[key := tables.presses[key].(reported := true)]);
      return true;
    }

    /** update_ring_state: any state may follow any state, as far as the unique index admits it. */
    method UpdateRingState(e: string, state: RingState, fails: nat -> bool) returns (ok: bool)
      requires Valid()
      modifies this
      ensures Valid() && Outcome(old(tables), SetRingState(e, state), ok, fails, tables)
      ensures ok ==>
        && e in old(tables).rings
        && tables == old(tables).(rings := old(tables).rings[e := old(tables).rings[e].(state := state)])
      ensures !ok ==> tables == old(tables)
      ensures NoFault(fails) ==>
        (ok <==> e in old(tables).rings
                 && (state == Ended
                     || forall x | x in old(tables).rings && x != e :: old(tables).rings[x].state == Ended))
    {
      hide Ok;
      ApplyKeepsOk(tables, SetRingState(e, state));
      if fails(0) || e !in tables.rings || (state != Ended && !NoOtherActive(tables, e)) {
        return false;
      }
      tables := WithRingState(tables, e, state);
      return true;
    }

    method BeginRecording(r: string, at: int, fails: nat -> bool) returns (ok: bool)
      requires Valid()
      modifies this
      ensures Valid() && Outcome(old(tables), Op.BeginRecording(r, at), ok, fails, tables)
      ensures ok ==>
        tables == old(tables).(recordings := old(tables).recordings[r := RecordingRow(Recording, at, None, 0, 0)])
      ensures !ok ==> tables == old(tables)
      ensures NoFault(fails) ==> (ok <==> r !in old(tables).recordings)
    {
      hide Ok;
      ApplyKeepsOk(tables, Op.BeginRecording(r, at));
      if fails(0) || r in tables.recordings {
        return false;
      }
      tables := WithRecording(tables, r, at);
      return true;
    }

    /** append_recording_segment: the row is inserted first and taken back when the recording is not open. */
    method AppendRecordingSegment(r: string, id: string, index: int, durationMs: int, sha256: string,
                                  fails: nat -> bool)
        returns (ok: bool)
      requires Valid()
      modifies this
      ensures Valid()
      ensures Outcome(old(tables), AppendSegment(r, id, index, durationMs, sha256), ok, fails, tables)
      ensures ok ==>
        && r in old(tables).recordings
        && var row := old(tables).recordings[r];
           tables == old(tables).(segments := old(tables).segments + [SegmentRow(id, r, index, durationMs, sha256)],
                                  recordings := old(tables).recordings[r :=
                                    row.(segmentCount := row.segmentCount + 1, totalMs := row.totalMs + durationMs)])
      ensures !ok ==> tables == old(tables)
      ensures NoFault(fails) ==>
        (ok <==> r in old(tables).recordings && old(tables).recordings[r].status == Recording
                 && forall i | 0 <= i < |old(tables).segments| ::
                      var segment := old(tables).segments[i];
                      segment.segmentId != id && !(segment.recordingId == r && segment.index == index))
    {
      hide Ok;
      ApplyKeepsOk(tables, AppendSegment(r, id, index, durationMs, sha256));
      if fails(0) {
        return false;
      }
      var saved := tables;
      if fails(1) || HasSegment(tables, id) || HasIndex(tables, r, index) || r !in tables.recordings {
        tables := saved;
        return false;
      }
      tables := tables.(segments := tables.segments + [SegmentRow(id, r, index, durationMs, sha256)]);
      if fails(2) || tables.recordings[r].status != Recording {
        tables := saved;
        return false;
      }
      var row := tables.recordings[r];
      tables := tables.(recordings :=
        tables.recordings[r := row.(segmentCount := row.segmentCount + 1, totalMs := row.totalMs + durationMs)]);
      if fails(3) {
        tables := saved;
        return false;
      }
      return true;
    }

    method FinalizeRecording(r: string, at: int, status: Status, fails: nat -> bool) returns (ok: bool)
      requires Valid()
      modifies this
      ensures Valid() && Outcome(old(tables), Op.FinalizeRecording(r, at, status), ok, fails, tables)
      ensures ok ==>
        && r in old(tables).recordings
        && var row := old(tables).recordings[r];
           tables == old(tables).(recordings := old(tables).recordings[r := row.(status := status, endedAt := Some(at))])
      ensures !ok ==> tables == old(tables)
      ensures NoFault(fails) ==>
        (ok <==> status != Recording && r in old(tables).recordings && old(tables).recordings[r].status == Recording)
    {
      hide Ok;
      ApplyKeepsOk(tables, Op.FinalizeRecording(r, at, status));
      if status == Recording || fails(0) || r !in tables.recordings || tables.recordings[r].status != Recording {
        return false;
      }
      tables := tables.(recordings :=
        tables.recordings[r := tables.recordings[r].(status := status, endedAt := Some(at))]);
      return true;
    }

    /** allocate_clip_ref: the first number after the day's last one whose file does not exist. */
    method AllocateClipRef(at: LocalTime, files: set<string>, fails: nat -> bool) returns (path: Option<string>)
      requires Valid() && at.Valid()
      modifies this
      ensures Valid()
      ensures path.None? ==> tables == old(tables) && !NoFault(fails)
      ensures path.Some? ==>
        var n := LastClip(tables, at.date);
        && path.value == ClipRelativePath(at, n) && path.value !in files
        && Allowed(old(tables), AllocateClip(at.date, n)) && tables == Apply(old(tables), AllocateClip(at.date, n))
        && forall k: nat | LastClip(old(tables), at.date) < k < n :: ClipRelativePath(at, k) in files
      ensures path.Some? ==>
        && at.date in tables.clipSequences
        && tables == old(tables).(clipSequences := old(tables).clipSequences[at.date := tables.clipSequences[at.date]])
        && path.value == ClipRelativePath(at, tables.clipSequences[at.date])
        && forall k: nat | k < tables.clipSequences[at.date] && ClipRelativePath(at, k) !in files ::
             if at.date in old(tables).clipSequences then k <= old(tables).clipSequences[at.date] else k == 0
    {
      hide Ok, ClipRelativePath;
      if fails(0) {
        return None;
      }
      var saved := tables;
      if fails(1) {
        tables := saved;
        return None;
      }
      var n: nat := LastClip(tables, at.date);
      tables := tables.(clipSequences := tables.clipSequences[at.date := n]);
      var step: nat := 2;
      ghost var untried := files;
      while true
        invariant tables == saved.(clipSequences := saved.clipSequences[at.date := n])
        invariant LastClip(saved, at.date) <= n
        invariant forall k: nat | LastClip(saved, at.date) < k <= n :: ClipRelativePath(at, k) in files
        invariant forall k: nat | k > n && ClipRelativePath(at, k) in files :: ClipRelativePath(at, k) in untried
        decreases untried
      {
        if fails(step) {
          tables := saved;
          return None;
        }
        n := n + 1;
        tables := tables.(clipSequences := tables.clipSequences[at.date := n]);
        if fails(step + 1) {
          tables := saved;
          return None;
        }
        var candidate := ClipRelativePath(at, n);
        if candidate !in files {
          if fails(step + 2) {
            tables := saved;
            return None;
          }
          ApplyKeepsOk(saved, AllocateClip(at.date, n));
          assert tables == Apply(saved, AllocateClip(at.date, n));
          assert LastClip(tables, at.date) == n;
          return Some(candidate);
        }
        forall k: nat | k > n ensures ClipRelativePath(at, k) != candidate {
          if ClipRelativePath(at, k) == candidate {
            ClipPathInjective(at, k, at, n);
          }
        }
        untried := untried - {candidate};
        step := step + 3;
      }
    }

    method UpdateEventSnapshotUrl(e: string, url: string, fails: nat -> bool) returns (ok: bool)
      requires Valid()
      modifies this
      ensures Valid() && Outcome(old(tables), SetSnapshotUrl(e, url), ok, fails, tables)
      ensures ok ==>
        && e in old(tables).events
        && tables == old(tables).(events := old(tables).events[e := old(tables).events[e].(snapshotUrl := url)])
      ensures !ok ==> tables == old(tables)
      ensures NoFault(fails) ==> (ok <==> e in old(tables).events)
    {
      hide Ok;
      ApplyKeepsOk(tables, SetSnapshotUrl(e, url));
      if fails(0) || e !in tables.events {
        return false;
      }
      tables := tables.(events := tables.events[e := tables.events[e].(snapshotUrl := url)]);
      return true;
    }

    /** A hash is written once; writing it again is accepted only when it is the same. */
    method UpdateSegmentSha256(id: string, sha256: string, fails: nat -> bool) returns (ok: bool)
      requires Valid()
      modifies this
      ensures Valid() && Outcome(old(tables), SetSha256(id, sha256), ok, fails, tables)
      ensures ok ==>
        && tables == old(tables).(segments := tables.segments) && |tables.segments| == |old(tables).segments|
        && forall i | 0 <= i < |tables.segments| ::
             tables.segments[i] == if old(tables).segments[i].segmentId == id
                                   then old(tables).segments[i].(sha256 := sha256) else old(tables).segments[i]
      ensures !ok ==> tables == old(tables)
      ensures NoFault(fails) ==>
        (ok <==> exists i | 0 <= i < |old(tables).segments| ::
                   var segment := old(tables).segments[i];
                   segment.segmentId == id && (segment.sha256 == "" || segment.sha256 == sha256))
    {
      hide Ok;
      ApplyKeepsOk(tables, SetSha256(id, sha256));
      if fails(0) || !(exists i | 0 <= i < |tables.segments| ::
                         tables.segments[i].segmentId == id && ShaMayBecome(tables.segments[i], sha256)) {
        return false;
      }
      SegmentsOfId(tables, id);
      tables := tables.(segments := SetSha(tables.segments, id, sha256));
      return true;
    }

    /** mark_reported and mark_unreportable: they succeed even for an unknown event. */
    method SetEventReported(e: string, value: int, fails: nat -> bool) returns (ok: bool)
      requires Valid() && (value == 1 || value == -1)
      modifies this
      ensures Valid() && Outcome(old(tables), SetReported(e, value), ok, fails, tables)
      ensures ok && e in old(tables).events ==>
        tables == old(tables).(events := old(tables).events[e := old(tables).events[e].(reported := value)])
      ensures !ok || e !in old(tables).events ==> tables == old(tables)
      ensures NoFault(fails) ==> ok
    {
      hide Ok;
      ApplyKeepsOk(tables, SetReported(e, value));
      if fails(0) {
        return false;
      }
      if e in tables.events {
        tables := tables.(events := tables.events[e := tables.events[e].(reported := value)]);
      }
      return true;
    }
  }

  /** With a ring active, a second one is not admitted under any id. */
  lemma OneMoreActive(t: Tables, stamp: string, r: string, newRecording: bool, at: int, path: string)
    requires Ok(t)
    ensures HasActive(t) ==> !Allowed(t, FirstPress(stamp, r, newRecording, at, path))
    ensures HasActive(t) ==> Allowed(t, Repress(ActiveRing(t), at))
  {
    hide FormatEventId;
    if HasActive(t) {
      var id := FormatEventId(stamp, t.sequence + 1);
      if id in t.rings {
        assert id in t.events;
      }
      NextPressIsFree(t, ActiveRing(t));
    }
  }
}
