/** class DeviceEventProcessor of src/events/device_event_processor.cpp. Each method is proved to be steps of
    ReportProtocol and RecordingProtocol; the ghost fields hold what other threads have in hand and the
    history RecordingProtocol speaks about. `World` gives the answers of the file system, the uploader, the
    message broker and the database. */
module DeviceEventProcessor {
  import opened EventPaths
  import opened Options
  import opened StoreTables
  import opened EventStore
  import RP = ReportProtocol
  import RecP = RecordingProtocol

  /** An entry of jobs_ or report_jobs_; readyAt 0 means at once. */
  datatype Task = Task(job: RP.Job, readyAt: int) {
    ghost predicate Ready(now: int) { readyAt == 0 || readyAt <= now }
  }

  datatype SegmentFile = SegmentFile(named: bool, canonical: bool, sameDirectory: bool, inspected: bool,
                                     finalExists: bool, renamed: bool, sized: bool, sha256: Option<string>)

  /** An entry of recording_jobs_. */
  datatype RecordingTask =
    | SegmentTask(r: string, index: int, startedAt: int, endedAt: int)
    | FinalizeTask(r: string, endedAt: int, status: Status)

  datatype World = World(fails: nat -> bool, published: bool, imageSaved: bool, uploaded: Option<string>,
                         file: SegmentFile)

  function JobOf(task: RecordingTask): RecP.RecordingJob {
    match task
    case SegmentTask(r, _, _, _) => RecP.Segment(r)
    case FinalizeTask(r, _, status) => RecP.Finalize(r, status)
  }

  // ------------------------------------------------------------------- what the protocols see

  function Reported(t: Tables): map<string, int> { map e | e in t.events :: t.events[e].reported }

  function PressFlags(t: Tables): map<PressKey, bool> { map k | k in t.presses :: t.presses[k].reported }

  function Rows(t: Tables): map<string, RecP.Row> {
    map r | r in t.recordings ::
      RecP.Row(t.recordings[r].status, if t.recordings[r].segmentCount < 0 then 0 else t.recordings[r].segmentCount)
  }

  function Tasks(q: seq<Task>): multiset<RP.Item> {
    if q == [] then multiset{} else Tasks(q[..|q| - 1]) + multiset{RP.Queued(q[|q| - 1].job)}
  }

  lemma {:induction false} TasksConcat(p: seq<Task>, q: seq<Task>)
    ensures Tasks(p + q) == Tasks(p) + Tasks(q)
  {
    hide Tasks;
    if q == [] {
      assert p + q == p;
      assert Tasks(q) == multiset{} by {
        TasksNone();
      }
    } else {
      var shorter, last := q[..|q| - 1], q[|q| - 1];
      TasksConcat(p, shorter);
      TasksAppend(p + shorter, last);
      TasksAppend(shorter, last);
      Associates(Tasks(p), Tasks(shorter), multiset{RP.Queued(last.job)});
      LastOfConcat(p, q);
    }
  }

  lemma TasksNone()
    ensures Tasks([]) == multiset{}
  {
  }

  lemma LastOfConcat(p: seq<Task>, q: seq<Task>)
    requires q != []
    ensures q[..|q| - 1] + [q[|q| - 1]] == q && p + q[..|q| - 1] + [q[|q| - 1]] == p + q
  {
  }

  lemma Associates(a: multiset<RP.Item>, b: multiset<RP.Item>, x: multiset<RP.Item>)
    ensures a + b + x == a + (b + x)
  {
  }

  lemma TasksOne(task: Task)
    ensures Tasks([task]) == multiset{RP.Queued(task.job)}
  {
    assert [task][..0] == [];
  }

  lemma Regroup(a: multiset<RP.Item>, x: multiset<RP.Item>, b: multiset<RP.Item>)
    ensures a + (x + b) == a + b + x
  {
  }

  lemma TasksRemove(q: seq<Task>, i: nat)
    requires i < |q|
    ensures Tasks(q) == Tasks(q[..i] + q[i + 1..]) + multiset{RP.Queued(q[i].job)}
  {
    hide Tasks;
    assert q == q[..i] + ([q[i]] + q[i + 1..]);
    TasksConcat(q[..i], [q[i]] + q[i + 1..]);
    TasksConcat([q[i]], q[i + 1..]);
    TasksConcat(q[..i], q[i + 1..]);
    TasksOne(q[i]);
    Regroup(Tasks(q[..i]), multiset{RP.Queued(q[i].job)}, Tasks(q[i + 1..]));
  }

  lemma TasksAppend(q: seq<Task>, task: Task)
    ensures Tasks(q + [task]) == Tasks(q) + multiset{RP.Queued(task.job)}
  {
    assert (q + [task])[..|q|] == q;
  }

  ghost predicate IsMinimum(q: seq<Task>, at: int) {
    (exists k | 0 <= k < |q| :: q[k].readyAt == at) && forall k | 0 <= k < |q| :: at <= q[k].readyAt
  }

  /** This one is the first of the queue that is ready, and rest is the queue without it. */
  ghost predicate IsFirstReady(q: seq<Task>, now: int, task: Task, rest: seq<Task>) {
    exists i: nat | i < |q| ::
      q[i] == task && task.Ready(now) && rest == q[..i] + q[i + 1..] && forall k | 0 <= k < i :: !q[k].Ready(now)
  }

  lemma HandOver(a: multiset<RP.Item>, b: multiset<RP.Item>, h: multiset<RP.Item>, x: RP.Item, y: RP.Item)
    ensures a + multiset{x} + b + h - multiset{x} + multiset{y} == a + b + (h + multiset{y})
    ensures b + (a + multiset{x}) + h - multiset{x} + multiset{y} == b + a + (h + multiset{y})
  {
  }

  lemma Exchanged(a: multiset<RP.Item>, h: multiset<RP.Item>, x: RP.Item, y: RP.Item)
    requires x in h
    ensures a + h - multiset{x} + multiset{y} == a + (h - multiset{x} + multiset{y})
  {
  }

  /** The first task of the queue that is ready, as both worker loops look for it; nextReady is when to look
      again. */
  method FirstReady(q: seq<Task>, now: int) returns (found: Option<nat>, nextReady: Option<int>)
    ensures found.Some? ==> found.value < |q| && q[found.value].Ready(now)
    ensures found.Some? ==> forall k | 0 <= k < found.value :: !q[k].Ready(now)
    ensures found.None? ==> forall k | 0 <= k < |q| :: !q[k].Ready(now)
    ensures found.None? ==> (nextReady.None? <==> q == [])
    ensures found.None? && nextReady.Some? ==> IsMinimum(q, nextReady.value)
  {
    nextReady := None;
    var i := 0;
    while i < |q|
      invariant i <= |q|
      invariant forall k | 0 <= k < i :: !q[k].Ready(now)
      invariant nextReady.None? <==> i == 0
      invariant nextReady.Some? ==> IsMinimum(q[..i], nextReady.value)
    {
      if q[i].readyAt == 0 || q[i].readyAt <= now {
        return Some(i), nextReady;
      }
      assert forall k | 0 <= k < i :: q[..i + 1][k] == q[..i][k];
      assert q[..i + 1][i] == q[i];
      if nextReady.None? || q[i].readyAt < nextReady.value {
        nextReady := Some(q[i].readyAt);
      }
      i := i + 1;
    }
    assert q[..i] == q;
    return None, nextReady;
  }

  // ------------------------------------------------ how transactions change what the protocols see

  lemma SettingReported(t: Tables, e: string, value: int)
    requires value == 1 || value == -1
    ensures var t' := Apply(t, SetReported(e, value));
      && Reported(t') == (if e in t.events then Reported(t)[e := value] else Reported(t))
      && PressFlags(t') == PressFlags(t) && Rows(t') == Rows(t)
  {
  }

  lemma MarkingPress(t: Tables, key: PressKey)
    requires key in t.presses
    ensures var t' := Apply(t, MarkPressReported(key.eventId, key.seqNo));
      && key in PressFlags(t) && PressFlags(t') == PressFlags(t)[key := true]
      && Reported(t') == Reported(t) && Rows(t') == Rows(t)
  {
    assert PressKey(key.eventId, key.seqNo) == key;
  }

  lemma SettingUrl(t: Tables, e: string, url: string)
    ensures var t' := Apply(t, SetSnapshotUrl(e, url));
      Reported(t') == Reported(t) && PressFlags(t') == PressFlags(t) && Rows(t') == Rows(t)
  {
  }

  lemma AddingPerson(t: Tables, op: Op)
    requires op.CreatePerson? && Allowed(t, op)
    ensures var t', id := Apply(t, op), FormatEventId(op.stamp, t.sequence + 1);
      && id !in Reported(t) && Reported(t') == Reported(t)[id := 0]
      && PressFlags(t') == PressFlags(t) && Rows(t') == Rows(t)
  {
    hide FormatEventId;
  }

  lemma AddingRing(t: Tables, op: Op)
    requires op.FirstPress? && Allowed(t, op)
    ensures var t', id := Apply(t, op), FormatEventId(op.stamp, t.sequence + 1);
      id !in Reported(t) && Reported(t') == Reported(t)[id := 0] && PressFlags(t') == PressFlags(t)
  {
    hide FormatEventId, NoOtherActive;
  }

  lemma AddingRingRows(t: Tables, op: Op)
    requires op.FirstPress? && Allowed(t, op)
    ensures Rows(Apply(t, op)) == if op.newRecording then Rows(t)[op.recordingId := RecP.Row(Recording, 0)] else Rows(t)
    ensures op.newRecording ==> op.recordingId !in Rows(t)
  {
    hide FormatEventId, NoOtherActive;
  }

  lemma AddingPress(t: Tables, op: Op)
    requires op.Repress? && Allowed(t, op)
    ensures var t', key := Apply(t, op), PressKey(op.eventId, t.rings[op.eventId].pressCount + 1);
      && key !in PressFlags(t) && PressFlags(t') == PressFlags(t)[key := false]
      && Reported(t') == Reported(t) && Rows(t') == Rows(t)
  {
  }

  lemma EndingRing(t: Tables, op: Op)
    requires op.Expire? || op.RecoverAccepted?
    ensures var t' := Apply(t, op);
      Reported(t') == Reported(t) && PressFlags(t') == PressFlags(t) && Rows(t') == Rows(t)
  {
  }

  lemma AppendingSegment(t: Tables, op: Op)
    requires Ok(t) && op.AppendSegment? && Allowed(t, op)
    ensures var t', r := Apply(t, op), op.recordingId;
      && r in Rows(t) && Rows(t)[r].status == Recording
      && Rows(t') == Rows(t)[r := Rows(t)[r].(segments := Rows(t)[r].segments + 1)]
      && Reported(t') == Reported(t) && PressFlags(t') == PressFlags(t)
  {
    hide HasSegment, HasIndex, Ok;
    CountsAreNatural(t, op.recordingId);
  }

  lemma CountsAreNatural(t: Tables, r: string)
    requires Ok(t) && r in t.recordings
    ensures t.recordings[r].segmentCount >= 0
  {
  }

  lemma RowsKeys(t: Tables)
    ensures Rows(t).Keys == t.recordings.Keys
  {
  }

  lemma RowIs(t: Tables, r: string)
    requires Ok(t) && r in t.recordings
    ensures r in Rows(t) && Rows(t)[r] == RecP.Row(t.recordings[r].status, t.recordings[r].segmentCount)
  {
    CountsAreNatural(t, r);
    hide Ok;
  }

  lemma RowsOpen(t: Tables, r: string)
    requires Ok(t)
    ensures IsOpenRow(t, r) <==> r in Rows(t) && Rows(t)[r].status == Recording
  {
    RowsKeys(t);
    if r in t.recordings {
      RowIs(t, r);
    }
    hide Ok;
  }

  lemma OpenMayFinish(t: Tables, r: string, at: int, status: Status)
    requires r in t.recordings && t.recordings[r].status == Recording && status != Recording
    ensures Allowed(t, Op.FinalizeRecording(r, at, status))
  {
  }

  lemma Finalizing(t: Tables, op: Op)
    requires op.FinalizeRecording? && Allowed(t, op)
    ensures var t', r := Apply(t, op), op.recordingId;
      && r in Rows(t) && Rows(t)[r].status == Recording
      && Rows(t') == Rows(t)[r := Rows(t)[r].(status := op.status)]
      && Reported(t') == Reported(t) && PressFlags(t') == PressFlags(t)
  {
  }

  lemma Beginning(t: Tables, op: Op)
    requires op.BeginRecording? && Allowed(t, op)
    ensures var t' := Apply(t, op);
      && op.recordingId !in Rows(t) && Rows(t') == Rows(t)[op.recordingId := RecP.Row(Recording, 0)]
      && Reported(t') == Reported(t) && PressFlags(t') == PressFlags(t)
  {
  }

  lemma Reopening(t: Tables)
    ensures var t' := Apply(t, Op.Reopen);
      && Rows(t') == (map r | r in Rows(t) ::
                        if Rows(t)[r].status == Recording then Rows(t)[r].(status := Failed) else Rows(t)[r])
      && Reported(t') == Reported(t) && PressFlags(t') == PressFlags(t)
  {
  }

  /** Every finalize job ever submitted asked for a terminal status. */
  ghost predicate AllAskForAnEnd(submitted: seq<RecP.RecordingJob>) {
    forall i | 0 <= i < |submitted| && submitted[i].Finalize? :: submitted[i].wanted != Recording
  }

  // What a job leaves in the tables, row by row.

  /** The address of the picture stands in the row of the event, and nothing else has changed. */
  ghost predicate UrlStored(before: Tables, e: string, url: string, after: Tables) {
    && e in before.events
    && after == before.(events := before.events[e := before.events[e].(snapshotUrl := url)])
  }

  ghost predicate HasPicture(hasPicture: bool, w: World) { hasPicture && w.imageSaved && w.uploaded.Some? }

  /** What becomes of the picture of an event: its address is stored if there is one, always when the
      database works and knows the event; otherwise nothing changes. */
  ghost predicate PictureHandled(before: Tables, e: string, hasPicture: bool, w: World, after: Tables) {
    && (after == before || (HasPicture(hasPicture, w) && UrlStored(before, e, w.uploaded.value, after)))
    && (HasPicture(hasPicture, w) && NoFault(w.fails) && e in before.events ==>
          UrlStored(before, e, w.uploaded.value, after))
  }

  /** A ring that was still ringing 40 s after its last press or 120 s after its first. */
  ghost predicate HasLapsed(t: Tables, at: int) { exists e :: e in t.rings && LapsedRinging(t.rings[e], at) }

  /** Such a ring has ended, and nothing else has changed. */
  ghost predicate RingLapsed(before: Tables, at: int, after: Tables) {
    exists e :: e in before.rings && LapsedRinging(before.rings[e], at)
      && after == before.(rings := before.rings[e := before.rings[e].(state := Ended)])
  }

  /** Recordings left open have failed, an accepted ring has ended, and nothing else has changed. */
  ghost predicate Reopened(before: Tables, after: Tables) {
    && after == before.(recordings := after.recordings, rings := after.rings)
    && after.recordings.Keys == before.recordings.Keys && after.rings.Keys == before.rings.Keys
    && (forall r | r in after.recordings ::
          var row := before.recordings[r];
          after.recordings[r]
            == if row.status != Recording then row
               else row.(status := Failed, endedAt := if row.endedAt.None? then Some(row.startedAt) else row.endedAt))
    && (forall e | e in after.rings ::
          var ring := before.rings[e];
          after.rings[e] == if ring.state == Accepted then ring.(state := Ended) else ring)
  }

  ghost predicate VerdictOfBackendStored(before: Tables, e: string, value: int, after: Tables) {
    && e in before.events
    && after == before.(events := before.events[e := before.events[e].(reported := value)])
  }

  ghost predicate PressMarked(before: Tables, k: PressKey, after: Tables) {
    && k in before.presses
    && after == before.(presses := before.presses[k := before.presses[k].(reported := true)])
  }

  /** What becomes of a report that was taken and leaves `rest` in its queue. That of an event goes away once
      its row holds a verdict; it is sent while the row reads as unreported. That of a press goes away once it
      is published and its row marked. Whatever does not go away is queued again, five seconds later. */
  ghost predicate ReportHandled(before: Tables, job: RP.Job, w: World, rest: seq<Task>, now: int, sends: bool,
                                queue: seq<Task>, after: Tables) {
    match job
    case ReportEvent(e) =>
      var known := !w.fails(0) && e in before.events;
      && after == before && (sends <==> known && before.events[e].reported == 0)
      && queue == rest + if known && before.events[e].reported != 0 then [] else [Task(job, now + 5000)]
    case ReportPress(k) =>
      && !sends
      && (if queue == rest then w.published && PressMarked(before, k, after)
          else queue == rest + [Task(job, now + 5000)] && after == before)
      && (w.published && NoFault(w.fails) && k in before.presses ==> queue == rest)
    case _ => false
  }

  ghost predicate IsOpenRow(t: Tables, r: string) { r in t.recordings && t.recordings[r].status == Recording }

  ghost function SegmentId(r: string, index: nat): string { r + "-" + Padded(6, index) }

  /** No segment has this id or, in this recording, this index. */
  ghost predicate IsNewSegment(t: Tables, r: string, index: nat) {
    forall i | 0 <= i < |t.segments| ::
      var segment := t.segments[i];
      segment.segmentId != SegmentId(r, index) && !(segment.recordingId == r && segment.index == index)
  }

  /** The row of a segment task is appended and counted. */
  ghost predicate SegmentStored(before: Tables, task: RecordingTask, sha256: string, after: Tables)
    requires task.SegmentTask?
  {
    && task.index > 0 && IsOpenRow(before, task.r)
    && var row := before.recordings[task.r];
       var durationMs := if task.endedAt > task.startedAt then task.endedAt - task.startedAt else 0;
       after == before.(
         segments := before.segments
           + [SegmentRow(SegmentId(task.r, task.index), task.r, task.index, durationMs, sha256)],
         recordings := before.recordings[task.r :=
           row.(segmentCount := row.segmentCount + 1, totalMs := row.totalMs + durationMs)])
  }

  /** A recording is ended with the status asked for, or with failed when it has no segment or one failed. */
  ghost predicate EndStored(before: Tables, task: RecordingTask, failed: set<string>, after: Tables)
    requires task.FinalizeTask?
  {
    && IsOpenRow(before, task.r)
    && var row := before.recordings[task.r];
       var status := if row.segmentCount == 0 || task.r in failed then Failed else task.status;
       after == before.(recordings := before.recordings[task.r := row.(status := status, endedAt := Some(task.endedAt))])
  }

  ghost predicate FileIsFine(task: RecordingTask, file: SegmentFile)
    requires task.SegmentTask?
  {
    && task.r != "" && task.index > 0 && file.named && file.canonical && file.sameDirectory
    && file.inspected && !file.finalExists && file.renamed && file.sized && file.sha256.Some?
  }

  /** What a recording task leaves in the tables, with any fault and without. */
  ghost predicate RecordingTaskStored(before: Tables, task: RecordingTask, failed: set<string>, lookupFails: bool,
                                      w: World, after: Tables) {
    match task
    case SegmentTask(r, index, _, _) =>
      && (after == before || (FileIsFine(task, w.file) && SegmentStored(before, task, w.file.sha256.value, after)))
      && (FileIsFine(task, w.file) && NoFault(w.fails) && IsOpenRow(before, r) && IsNewSegment(before, r, index) ==>
            SegmentStored(before, task, w.file.sha256.value, after))
    case FinalizeTask(r, _, _) =>
      && (after == before || EndStored(before, task, failed, after))
      && (!lookupFails && NoFault(w.fails) && IsOpenRow(before, r) ==> EndStored(before, task, failed, after))
  }

  predicate IsReport(job: RP.Job) { job.ReportEvent? || job.ReportPress? }

  // ---------------------------------------------------------------------------------- the class

  class DeviceEventProcessor {
    const store: EventStore
    var recordingJobs: seq<RecordingTask>
    var jobs: seq<Task>
    var reportJobs: seq<Task>
    var pendingRingSnapshots: set<string>
    var failedRecordings: set<string>
    ghost var hands: multiset<RP.Item>
    ghost var tickets: seq<nat>
    ghost var recordingHand: Option<nat>
    ghost var submitted: seq<RecP.RecordingJob>
    ghost var committed: map<nat, bool>
    ghost var since: map<string, nat>
    ghost const started: nat

    ghost predicate Valid()
      reads this, store
    {
      && store.Valid()
      && (forall k | 0 <= k < |jobs| :: !IsReport(jobs[k].job))
      && (forall k | 0 <= k < |reportJobs| :: IsReport(reportJobs[k].job))
      && |tickets| == |recordingJobs|
      && (forall i | 0 <= i < |tickets| :: tickets[i] < |submitted| && JobOf(recordingJobs[i]) == submitted[tickets[i]])
      && AllAskForAnEnd(submitted)
    }

    ghost function Reports(): RP.State
      reads this, store
    {
      RP.State(Reported(store.tables), PressFlags(store.tables), pendingRingSnapshots,
               Tasks(jobs) + Tasks(reportJobs) + hands)
    }

    ghost function Recordings(): RecP.State
      reads this, store
    {
      RecP.State(Rows(store.tables), tickets, recordingHand, failedRecordings, submitted, committed, started, since)
    }

    /** A process starts on whatever an earlier one left in the database. */
    constructor (store: EventStore, ghost submitted: seq<RecP.RecordingJob>, ghost committed: map<nat, bool>,
                 ghost since: map<string, nat>)
      requires store.Valid() && AllAskForAnEnd(submitted)
      ensures Valid() && this.store == store && started == |submitted|
      ensures this.submitted == submitted && this.committed == committed && this.since == since
      ensures recordingJobs == [] && jobs == [] && reportJobs == [] && pendingRingSnapshots == {}
      ensures failedRecordings == {} && hands == multiset{} && recordingHand == None
    {
      this.store := store;
      recordingJobs, jobs, reportJobs, pendingRingSnapshots, failedRecordings := [], [], [], {}, {};
      hands, tickets, recordingHand, this.submitted, this.committed := multiset{}, [], None, submitted, committed;
      this.since, started := since, |submitted|;
    }

    /** enqueue for the two queues that are not recording_jobs_. */
    method Enqueue(task: Task)
      requires Valid()
      modifies this`jobs, this`reportJobs
      ensures Valid() && Recordings() == old(Recordings())
      ensures if IsReport(task.job) then jobs == old(jobs) && reportJobs == old(reportJobs) + [task]
              else jobs == old(jobs) + [task] && reportJobs == old(reportJobs)
      ensures Reports() == old(Reports()).(items := old(Reports()).items + multiset{RP.Queued(task.job)})
    {
      hide Tasks, Reported, PressFlags, Rows;
      if task.job.ReportEvent? || task.job.ReportPress? {
        TasksAppend(reportJobs, task);
        reportJobs := reportJobs + [task];
      } else {
        TasksAppend(jobs, task);
        jobs := jobs + [task];
      }
    }

    /** Drops an item from this thread's hands. */
    ghost method LetGo(item: RP.Item)
      requires Valid() && item in hands
      modifies this`hands
      ensures Valid() && Recordings() == old(Recordings()) && hands == old(hands) - multiset{item}
      ensures Reports() == old(Reports()).(items := old(Reports()).items - multiset{item})
    {
      hide Tasks, Reported, PressFlags, Rows;
      hands := hands - multiset{item};
    }

    ghost method Pick(item: RP.Item)
      requires Valid()
      modifies this`hands
      ensures Valid() && Recordings() == old(Recordings()) && hands == old(hands) + multiset{item}
      ensures Reports() == old(Reports()).(items := old(Reports()).items + multiset{item})
    {
      hide Tasks, Reported, PressFlags, Rows;
      hands := hands + multiset{item};
    }

    /** jobs_.erase(found), and the job is in this thread's hands. */
    method RemoveJob(i: nat)
      requires Valid() && i < |jobs|
      modifies this`jobs, this`hands
      ensures Valid() && Recordings() == old(Recordings())
      ensures jobs == old(jobs[..i] + jobs[i + 1..]) && hands == old(hands) + multiset{RP.Held(old(jobs[i]).job)}
      ensures RP.Does(old(Reports()), RP.Take(old(jobs[i]).job), Reports())
    {
      hide Tasks, Reported, PressFlags, Rows, RP.Does;
      ghost var before, job := Reports(), jobs[i].job;
      TasksRemove(jobs, i);
      HandOver(Tasks(jobs[..i] + jobs[i + 1..]), Tasks(reportJobs), hands, RP.Queued(job), RP.Held(job));
      jobs := jobs[..i] + jobs[i + 1..];
      hands := hands + multiset{RP.Held(job)};
      RP.TakeIs(before, job);
    }

    method RemoveReport(i: nat)
      requires Valid() && i < |reportJobs|
      modifies this`reportJobs, this`hands
      ensures Valid() && Recordings() == old(Recordings())
      ensures reportJobs == old(reportJobs[..i] + reportJobs[i + 1..])
      ensures hands == old(hands) + multiset{RP.Held(old(reportJobs[i]).job)}
      ensures RP.Does(old(Reports()), RP.Take(old(reportJobs[i]).job), Reports())
    {
      hide Tasks, Reported, PressFlags, Rows, RP.Does;
      ghost var before, job := Reports(), reportJobs[i].job;
      TasksRemove(reportJobs, i);
      HandOver(Tasks(reportJobs[..i] + reportJobs[i + 1..]), Tasks(jobs), hands, RP.Queued(job), RP.Held(job));
      reportJobs := reportJobs[..i] + reportJobs[i + 1..];
      hands := hands + multiset{RP.Held(job)};
      RP.TakeIs(before, job);
    }

    /** The worker takes its next job: a recording job if there is one, else the first ready one. */
    method TakeJob(now: int) returns (recording: Option<RecordingTask>, task: Option<Task>)
      requires Valid() && recordingHand == None
      modifies this`jobs, this`hands, this`recordingJobs, this`tickets, this`recordingHand
      ensures Valid() && (recording.Some? || task.None? ==> jobs == old(jobs))
      ensures recording.Some? <==> old(recordingJobs) != []
      ensures recording.Some? ==> recording == Some(old(recordingJobs)[0]) && task.None?
      ensures recording.Some? ==> recordingJobs == old(recordingJobs)[1..] && Reports() == old(Reports())
      ensures recording.Some? ==> RecP.Does(old(Recordings()), RecP.Take, Recordings()) && HasInHand(recording.value)
      ensures recording.None? ==> Recordings() == old(Recordings())
      ensures task.Some? ==> IsFirstReady(old(jobs), now, task.value, jobs) && RP.Held(task.value.job) in hands
      ensures task.Some? ==> RP.Does(old(Reports()), RP.Take(task.value.job), Reports()) && recordingHand == None
      ensures recording.None? && task.None? ==> Reports() == old(Reports()) && recordingHand == None
      ensures recording.None? && task.None? ==> forall k | 0 <= k < |jobs| :: !jobs[k].Ready(now)
    {
      hide Tasks, Reported, PressFlags, Rows, RP.Does;
      if recordingJobs != [] {
        recording, task := Some(recordingJobs[0]), None;
        recordingHand := Some(tickets[0]);
        recordingJobs, tickets := recordingJobs[1..], tickets[1..];
        return;
      }
      recording := None;
      var found, _ := FirstReady(jobs, now);
      if found.None? {
        return None, None;
      }
      task := Some(jobs[found.value]);
      RemoveJob(found.value);
    }

    /** The recording job the worker has in hand is this one. */
    ghost predicate HasInHand(task: RecordingTask)
      reads this
    {
      recordingHand.Some? && recordingHand.value < |submitted| && submitted[recordingHand.value] == JobOf(task)
    }

    /** The report worker takes the first ready report. */
    method TakeReport(now: int) returns (task: Option<Task>)
      requires Valid()
      modifies this`reportJobs, this`hands
      ensures Valid() && Recordings() == old(Recordings()) && (task.None? ==> reportJobs == old(reportJobs))
      ensures task.Some? ==>
        && IsFirstReady(old(reportJobs), now, task.value, reportJobs) && RP.Held(task.value.job) in hands
        && IsReport(task.value.job)
      ensures task.Some? ==> RP.Does(old(Reports()), RP.Take(task.value.job), Reports())
      ensures task.None? ==> Reports() == old(Reports())
      ensures task.None? ==> forall k | 0 <= k < |reportJobs| :: !reportJobs[k].Ready(now)
    {
      hide Tasks, Reported, PressFlags, Rows, RP.Does;
      var found, _ := FirstReady(reportJobs, now);
      if found.None? {
        return None;
      }
      task := Some(reportJobs[found.value]);
      RemoveReport(found.value);
    }

    /** A failed report goes back into the queue, five seconds later. */
    method RetryReport(task: Task, now: int)
      requires Valid() && RP.Held(task.job) in hands && (task.job.ReportEvent? || task.job.ReportPress?)
      modifies this`hands, this`jobs, this`reportJobs
      ensures Valid() && Recordings() == old(Recordings())
      ensures RP.Does(old(Reports()), RP.Retry(task.job), Reports())
      ensures reportJobs == old(reportJobs) + [Task(task.job, now + 5000)] && jobs == old(jobs)
    {
      hide Tasks, Reported, PressFlags, Rows, RP.Does;
      RP.RetryIs(Reports(), task.job);
      LetGo(RP.Held(task.job));
      Enqueue(Task(task.job, now + 5000));
    }

    /** The report of an event: done once the row holds a verdict of the backend; until then it is published
        and tried again. */
    method ProcessReportEvent(e: string, w: World) returns (done: bool, sends: bool)
      requires Valid() && RP.Held(RP.ReportEvent(e)) in hands
      modifies this`hands
      ensures Valid() && Recordings() == old(Recordings())
      ensures if done then RP.Does(old(Reports()), RP.EventDone(e), Reports())
              else Reports() == old(Reports()) && hands == old(hands)
      ensures done <==> !w.fails(0) && e in store.tables.events && store.tables.events[e].reported != 0
      ensures sends <==> !w.fails(0) && e in store.tables.events && store.tables.events[e].reported == 0
    {
      hide Tasks, PressFlags, Rows, RP.Does;
      if w.fails(0) || e !in store.tables.events {
        return false, false;
      }
      if store.tables.events[e].reported != 0 {
        RP.EventDoneIs(Reports(), e);
        LetGo(RP.Held(RP.ReportEvent(e)));
        return true, false;
      }
      return false, true;
    }

    /** The report of a press is done when it is published and its row marked. */
    method ProcessReportPress(k: PressKey, w: World) returns (done: bool)
      requires Valid() && RP.Held(RP.ReportPress(k)) in hands
      modifies this`hands, store
      ensures Valid() && Recordings() == old(Recordings())
      ensures if done then RP.Does(old(Reports()), RP.PressDone(k), Reports())
              else Reports() == old(Reports()) && hands == old(hands)
      ensures done ==> w.published && PressMarked(old(store.tables), k, store.tables)
      ensures !done ==> store.tables == old(store.tables)
      ensures w.published && NoFault(w.fails) && k in old(store.tables).presses ==> done
    {
      hide Tasks, Reported, PressFlags, Rows, RP.Does, Ok;
      if !w.published {
        return false;
      }
      var ok := store.MarkRingPressReported(k.eventId, k.seqNo, w.fails);
      assert PressKey(k.eventId, k.seqNo) == k;
      if !ok {
        return false;
      }
      MarkingPress(old(store.tables), k);
      RP.PressDoneIs(old(Reports()), k);
      LetGo(RP.Held(RP.ReportPress(k)));
      return true;
    }

    /** create_person_event, seen as the commit step of the event. */
    method RecordPerson(stamp: string, recordingId: string, at: int, path: string, w: World)
        returns (id: Option<string>)
      requires Valid()
      modifies this`hands, store
      ensures Valid() && Recordings() == old(Recordings())
      ensures id.None? ==> Reports() == old(Reports()) && store.tables == old(store.tables)
      ensures id.Some? ==>
        && RP.Does(old(Reports()), RP.CommitPerson(id.value), Reports()) && RP.NewPerson(id.value) in hands
        && id == Some(FormatEventId(stamp, old(store.tables).sequence + 1))
        && store.tables == old(store.tables).(
             sequence := old(store.tables).sequence + 1,
             events := old(store.tables).events[id.value := EventRow(Person, recordingId, at, path, "", 0)])
      ensures NoFault(w.fails) ==> (id.Some? <==> recordingId in old(store.tables).recordings)
    {
      hide Tasks, Reported, PressFlags, Rows, RP.Does, RP.Next, Ok, FormatEventId, Allowed, Apply;
      id := store.CreatePersonEvent(stamp, recordingId, at, path, w.fails);
      if id.None? {
        return;
      }
      AddingPerson(old(store.tables), CreatePerson(stamp, recordingId, at, path));
      RP.CommitPersonIs(old(Reports()), id.value);
      Pick(RP.NewPerson(id.value));
    }

    /** begin_person_event: the row is committed, then its report is queued. */
    method BeginPersonEvent(stamp: string, recordingId: string, at: int, path: string, w: World)
        returns (id: Option<string>)
      requires Valid()
      modifies this`hands, this`jobs, this`reportJobs, store
      ensures Valid() && Recordings() == old(Recordings())
      ensures id.None? ==> Reports() == old(Reports()) && store.tables == old(store.tables)
      ensures id.None? ==> jobs == old(jobs) && reportJobs == old(reportJobs)
      ensures id.Some? ==>
        && RP.Does2(old(Reports()), RP.CommitPerson(id.value), RP.QueuePerson(id.value), Reports())
        && reportJobs == old(reportJobs) + [Task(RP.ReportEvent(id.value), 0)] && jobs == old(jobs)
      ensures id.Some? ==>
        && id == Some(FormatEventId(stamp, old(store.tables).sequence + 1))
        && store.tables == old(store.tables).(
             sequence := old(store.tables).sequence + 1,
             events := old(store.tables).events[id.value := EventRow(Person, recordingId, at, path, "", 0)])
      ensures NoFault(w.fails) ==> (id.Some? <==> recordingId in old(store.tables).recordings)
    {
      hide Tasks, Reported, PressFlags, Rows, RP.Does, RP.Next, Ok, FormatEventId;
      id := RecordPerson(stamp, recordingId, at, path, w);
      if id.None? {
        return;
      }
      RP.QueuePersonIs(Reports(), id.value);
      LetGo(RP.NewPerson(id.value));
      Enqueue(Task(RP.ReportEvent(id.value), 0));
      RP.Chain2(old(Reports()), RP.CommitPerson(id.value), RP.QueuePerson(id.value), Reports());
    }

    method ArmToken(e: string)
      requires Valid() && RP.NewRing(e) in hands
      modifies this`hands, this`pendingRingSnapshots
      ensures Valid() && Recordings() == old(Recordings()) && RP.Arming(e) in hands
      ensures RP.Does(old(Reports()), RP.Arm(e), Reports())
    {
      hide Tasks, Reported, PressFlags, Rows, RP.Does;
      ghost var before := Reports();
      RP.ArmIs(before, e);
      Exchanged(Tasks(jobs) + Tasks(reportJobs), hands, RP.NewRing(e), RP.Arming(e));
      hands := hands - multiset{RP.NewRing(e)} + multiset{RP.Arming(e)};
      pendingRingSnapshots := pendingRingSnapshots + {e};
    }

    /** A new ring event: its token is armed, then its timeout is queued. */
    method ArmRing(e: string, now: int)
      requires Valid() && RP.NewRing(e) in hands
      modifies this`hands, this`jobs, this`reportJobs, this`pendingRingSnapshots
      ensures Valid() && Recordings() == old(Recordings())
      ensures RP.Does2(old(Reports()), RP.Arm(e), RP.QueueTimeout(e), Reports())
      ensures jobs == old(jobs) + [Task(RP.Timeout(e), now + 1100)] && reportJobs == old(reportJobs)
    {
      hide Tasks, Reported, PressFlags, Rows, RP.Does, RP.Next;
      ArmToken(e);
      RP.QueueTimeoutIs(Reports(), e);
      LetGo(RP.Arming(e));
      Enqueue(Task(RP.Timeout(e), now + 1100));
      RP.Chain2(old(Reports()), RP.Arm(e), RP.QueueTimeout(e), Reports());
    }

    /** begin_ring_press: expiry first, then the press; a new event is armed, another press queued. */
    method BeginRingPress(stamp: string, device: string, recordingId: string, at: int, path: string, now: int,
                          expireFails: nat -> bool, w: World)
        returns (press: Option<RingPress>, ghost checked: Tables)
      requires Valid()
      modifies this`hands, this`jobs, this`reportJobs, this`pendingRingSnapshots, this`since, store
      ensures Valid()
      ensures checked == old(store.tables) || RingLapsed(old(store.tables), at, checked)
      ensures NoFault(expireFails) && HasLapsed(old(store.tables), at) ==> RingLapsed(old(store.tables), at, checked)
      ensures PressRecorded(checked, stamp, device, recordingId, at, path, press, store.tables)
      ensures NoFault(w.fails) && MayPress(checked, device, recordingId, at) ==> press.Some?
      ensures press.None? ==> jobs == old(jobs) && reportJobs == old(reportJobs)
      ensures press.None? ==> Reports() == old(Reports()) && Recordings() == old(Recordings())
      ensures press.Some? && press.value.initial ==>
        var e := press.value.eventId;
        && RP.Does3(old(Reports()), RP.CommitRing(e), RP.Arm(e), RP.QueueTimeout(e), Reports())
        && jobs == old(jobs) + [Task(RP.Timeout(e), now + 1100)] && reportJobs == old(reportJobs)
      ensures press.Some? && press.value.initial ==>
        if recordingId == "" then RecP.Does(old(Recordings()), RecP.Begin(RecordingId(device, at)), Recordings())
        else Recordings() == old(Recordings())
      ensures press.Some? && !press.value.initial ==>
        var k := PressKey(press.value.eventId, press.value.seqNo);
        && RP.Does2(old(Reports()), RP.CommitPress(k), RP.QueuePress(k), Reports())
        && reportJobs == old(reportJobs) + [Task(RP.ReportPress(k), 0)] && jobs == old(jobs)
        && Recordings() == old(Recordings())
      ensures NoFault(expireFails) && press.Some? ==>
        press.value.initial == !HasActive(CheckExpiry(old(store.tables), at))
    {
      hide Tasks, Reported, PressFlags, Rows, RP.Does, RP.Next, Ok, FormatEventId, CheckExpiry, HasDue;
      hide RingLapsed, HasLapsed, PressRecorded, MayPress;
      Expire(at, expireFails);
      checked := store.tables;
      press := RecordPress(stamp, device, recordingId, at, path, w);
      if press.None? {
        return;
      }
      if press.value.initial {
        ghost var e := press.value.eventId;
        ArmRing(press.value.eventId, now);
        RP.Chain3(old(Reports()), RP.CommitRing(e), RP.Arm(e), RP.QueueTimeout(e), Reports());
      } else {
        var k := PressKey(press.value.eventId, press.value.seqNo);
        RP.QueuePressIs(Reports(), k);
        LetGo(RP.NewPress(k));
        Enqueue(Task(RP.ReportPress(k), 0));
        RP.Chain2(old(Reports()), RP.CommitPress(k), RP.QueuePress(k), Reports());
      }
    }

    /** expire_ring_if_needed */
    method Expire(at: int, fails: nat -> bool)
      requires Valid()
      modifies store
      ensures Valid() && Reports() == old(Reports()) && Recordings() == old(Recordings())
      ensures store.tables == old(store.tables) || store.tables == CheckExpiry(old(store.tables), at)
      ensures NoFault(fails) ==> store.tables == CheckExpiry(old(store.tables), at)
      ensures store.tables == old(store.tables) || RingLapsed(old(store.tables), at, store.tables)
      ensures NoFault(fails) && HasLapsed(old(store.tables), at) ==> RingLapsed(old(store.tables), at, store.tables)
    {
      hide Tasks, Reported, PressFlags, Rows, Ok;
      var ended := store.ExpireOpenRing(at, fails);
      if ended.Some? {
        EndingRing(old(store.tables), Op.Expire(ended.value, at));
        DueIs(old(store.tables), ended.value, at);
      }
    }

    /** record_ring_press, seen as the commit step of the press. */
    method RecordPress(stamp: string, device: string, recordingId: string, at: int, path: string, w: World)
        returns (press: Option<RingPress>)
      requires Valid()
      modifies this`hands, this`since, store
      ensures Valid() && jobs == old(jobs) && reportJobs == old(reportJobs)
      ensures PressRecorded(old(store.tables), stamp, device, recordingId, at, path, press, store.tables)
      ensures NoFault(w.fails) && MayPress(old(store.tables), device, recordingId, at) ==> press.Some?
      ensures press.None? ==> Reports() == old(Reports()) && Recordings() == old(Recordings())
      ensures press.Some? ==> press.value.initial == !HasActive(old(store.tables))
      ensures press.Some? && press.value.initial ==>
        && RP.Does(old(Reports()), RP.CommitRing(press.value.eventId), Reports())
        && RP.NewRing(press.value.eventId) in hands
      ensures press.Some? && press.value.initial ==>
        if recordingId == "" then RecP.Does(old(Recordings()), RecP.Begin(RecordingId(device, at)), Recordings())
        else Recordings() == old(Recordings())
      ensures press.Some? && !press.value.initial ==>
        var k := PressKey(press.value.eventId, press.value.seqNo);
        && RP.Does(old(Reports()), RP.CommitPress(k), Reports()) && RP.NewPress(k) in hands
        && Recordings() == old(Recordings())
    {
      hide Tasks, Reported, PressFlags, Rows, RP.Does, RP.Next, Ok, FormatEventId, Apply, PressRecorded, MayPress;
      ghost var before := store.tables;
      press := store.RecordRingPress(stamp, device, recordingId, at, path, w.fails);
      if press.None? {
        return;
      }
      if press.value.initial {
        ghost var effective := if recordingId == "" then RecordingId(device, at) else recordingId;
        ghost var op := FirstPress(stamp, effective, recordingId == "", at, path);
        AddingRing(before, op);
        AddingRingRows(before, op);
        if recordingId == "" {
          since := since[effective := started];
        }
        RP.CommitRingIs(old(Reports()), press.value.eventId);
        Pick(RP.NewRing(press.value.eventId));
      } else {
        ghost var k := PressKey(press.value.eventId, press.value.seqNo);
        AddingPress(before, Op.Repress(press.value.eventId, at));
        RP.CommitPressIs(old(Reports()), k);
        Pick(RP.NewPress(k));
      }
    }

    method TakeToken(e: string)
      requires Valid() && e in pendingRingSnapshots
      modifies this`hands, this`pendingRingSnapshots
      ensures Valid() && Recordings() == old(Recordings()) && RP.Submitting(e) in hands
      ensures RP.Does(old(Reports()), RP.TakeToken(e), Reports())
    {
      hide Tasks, Reported, PressFlags, Rows, RP.Does;
      RP.TakeTokenIs(Reports(), e);
      pendingRingSnapshots := pendingRingSnapshots - {e};
      Pick(RP.Submitting(e));
    }

    /** submit_ring_snapshot: only the first caller that finds the token may hand in a picture. */
    method SubmitRingSnapshot(e: string)
      requires Valid()
      modifies this`hands, this`jobs, this`reportJobs, this`pendingRingSnapshots
      ensures Valid() && Recordings() == old(Recordings())
      ensures
        if e in old(pendingRingSnapshots) then
          && RP.Does2(old(Reports()), RP.TakeToken(e), RP.QueueSubmitted(e), Reports())
          && jobs == old(jobs) + [Task(RP.Submitted(e), 0)] && reportJobs == old(reportJobs)
        else Reports() == old(Reports()) && jobs == old(jobs) && reportJobs == old(reportJobs)
    {
      hide Tasks, Reported, PressFlags, Rows, RP.Does, RP.Next;
      if e !in pendingRingSnapshots {
        return;
      }
      TakeToken(e);
      RP.QueueSubmittedIs(Reports(), e);
      LetGo(RP.Submitting(e));
      Enqueue(Task(RP.Submitted(e), 0));
      RP.Chain2(old(Reports()), RP.TakeToken(e), RP.QueueSubmitted(e), Reports());
    }

    /** The start of a PrepareRingEvent job: a timeout goes on only if it still finds the token. */
    method BeginPrepare(job: RP.Job) returns (prepares: bool)
      requires Valid() && RP.Held(job) in hands && (job.Timeout? || job.Submitted?)
      modifies this`hands, this`pendingRingSnapshots
      ensures Valid() && Recordings() == old(Recordings())
      ensures prepares <==> job.Submitted? || job.e in old(pendingRingSnapshots)
      ensures prepares ==> RP.Prepared(job.e) in hands
      ensures RP.Does(old(Reports()),
                      if job.Submitted? then RP.PrepareSubmitted(job.e)
                      else if prepares then RP.TimeoutFires(job.e) else RP.TimeoutTooLate(job.e),
                      Reports())
    {
      hide Tasks, Reported, PressFlags, Rows, RP.Does, RP.Next;
      if job.Timeout? {
        if job.e !in pendingRingSnapshots {
          RP.TimeoutTooLateIs(Reports(), job.e);
          LetGo(RP.Held(job));
          return false;
        }
        RP.TimeoutFiresIs(Reports(), job.e);
        pendingRingSnapshots := pendingRingSnapshots - {job.e};
      } else {
        RP.PrepareSubmittedIs(Reports(), job.e);
      }
      LetGo(RP.Held(job));
      Pick(RP.Prepared(job.e));
      return true;
    }

    /** The picture is saved and uploaded, and its address stored, as far as that works. */
    method UploadPicture(e: string, hasPicture: bool, w: World)
      requires Valid()
      modifies store
      ensures Valid() && Recordings() == old(Recordings()) && Reports() == old(Reports())
      ensures PictureHandled(old(store.tables), e, hasPicture, w, store.tables)
    {
      hide Tasks, Reported, PressFlags, Rows, Ok, Allowed, Apply;
      if hasPicture && w.imageSaved && w.uploaded.Some? {
        ghost var before := store.tables;
        var _ := store.UpdateEventSnapshotUrl(e, w.uploaded.value, w.fails);
        SettingUrl(before, e, w.uploaded.value);
      }
    }

    /** The rest of it: whatever became of the picture, the report is queued. */
    method FinishPrepare(e: string, hasPicture: bool, w: World)
      requires Valid() && RP.Prepared(e) in hands
      modifies this`hands, this`jobs, this`reportJobs, store
      ensures Valid() && Recordings() == old(Recordings())
      ensures RP.Does(old(Reports()), RP.QueueReport(e), Reports())
      ensures reportJobs == old(reportJobs) + [Task(RP.ReportEvent(e), 0)] && jobs == old(jobs)
      ensures PictureHandled(old(store.tables), e, hasPicture, w, store.tables)
    {
      hide Tasks, Reported, PressFlags, Rows, RP.Does, RP.Next, Ok, PictureHandled;
      UploadPicture(e, hasPicture, w);
      RP.QueueReportIs(Reports(), e);
      LetGo(RP.Prepared(e));
      Enqueue(Task(RP.ReportEvent(e), 0));
    }

    /** handle_report_ack for an event: success and permanent rejection are verdicts, the rest is ignored. */
    method HandleReportAck(e: string, ok: bool, retryable: bool, w: World)
      requires Valid()
      modifies store
      ensures Valid() && Recordings() == old(Recordings())
      ensures var value := if ok then 1 else -1;
        || Reports() == old(Reports())
        || (e != "" && (ok || !retryable) && RP.Does(old(Reports()), RP.Ack(e, value), Reports()))
      ensures var value := if ok then 1 else -1;
        || store.tables == old(store.tables)
        || (e != "" && (ok || !retryable) && VerdictOfBackendStored(old(store.tables), e, value, store.tables))
      ensures NoFault(w.fails) && e != "" && (ok || !retryable) && e in old(store.tables).events ==>
        VerdictOfBackendStored(old(store.tables), e, if ok then 1 else -1, store.tables)
    {
      hide Tasks, PressFlags, Rows, RP.Does, Ok;
      if e == "" || (!ok && retryable) {
        return;
      }
      var value := if ok then 1 else -1;
      SettingReported(store.tables, e, value);
      RP.AckIs(Reports(), e, value);
      var _ := store.SetEventReported(e, value, w.fails);
    }

    // -------------------------------------------------------------------------- recording jobs

    method RegisterStartedRecording(device: string, at: int, mediaAvailable: bool, w: World)
        returns (recordingId: Option<string>)
      requires Valid()
      modifies this`since, store
      ensures Valid() && Reports() == old(Reports())
      ensures recordingId.Some? ==>
        && recordingId.value == RecordingId(device, at) && mediaAvailable
        && RecP.Does(old(Recordings()), RecP.Begin(recordingId.value), Recordings())
      ensures recordingId.None? ==> Recordings() == old(Recordings()) && store.tables == old(store.tables)
      ensures recordingId.Some? ==>
        store.tables == old(store.tables).(
          recordings := old(store.tables).recordings[recordingId.value := RecordingRow(Recording, at, None, 0, 0)])
      ensures mediaAvailable && NoFault(w.fails) && RecordingId(device, at) !in old(store.tables).recordings ==>
        recordingId.Some?
    {
      hide Tasks, Reported, PressFlags, Rows, Ok, Apply, RecordingId;
      if !mediaAvailable {
        return None;
      }
      var r := RecordingId(device, at);
      ghost var before := store.tables;
      var ok := store.BeginRecording(r, at, w.fails);
      if !ok {
        return None;
      }
      Beginning(before, Op.BeginRecording(r, at));
      since := since[r := started];
      return Some(r);
    }

    method EnqueueRecording(task: RecordingTask)
      requires Valid() && (task.FinalizeTask? ==> task.status != Recording)
      modifies this`recordingJobs, this`tickets, this`submitted
      ensures Valid() && Reports() == old(Reports()) && recordingJobs == old(recordingJobs) + [task]
      ensures RecP.Does(old(Recordings()), RecP.Submit(JobOf(task)), Recordings())
    {
      hide Tasks, Reported, PressFlags, Rows, Ok;
      recordingJobs := recordingJobs + [task];
      tickets := tickets + [|submitted|];
      submitted := submitted + [JobOf(task)];
    }

    /** submit_completed_recording_segment, whether or not there is such a recording. */
    method SubmitSegment(r: string, index: int, startedAt: int, endedAt: int)
      requires Valid()
      modifies this`recordingJobs, this`tickets, this`submitted
      ensures Valid() && Reports() == old(Reports())
      ensures recordingJobs == old(recordingJobs) + [SegmentTask(r, index, startedAt, endedAt)]
      ensures RecP.Does(old(Recordings()), RecP.Submit(RecP.Segment(r)), Recordings())
    {
      EnqueueRecording(SegmentTask(r, index, startedAt, endedAt));
    }

    /** finalize_recording, up to where it waits for the worker. */
    method FinalizeRecording(r: string, endedAt: int, status: Status, workerRuns: bool) returns (queued: bool)
      requires Valid()
      modifies this`recordingJobs, this`tickets, this`submitted
      ensures Valid() && Reports() == old(Reports()) && queued == (status != Recording && workerRuns)
      ensures queued ==> recordingJobs == old(recordingJobs) + [FinalizeTask(r, endedAt, status)]
      ensures queued ==> RecP.Does(old(Recordings()), RecP.Submit(RecP.Finalize(r, status)), Recordings())
      ensures !queued ==> Recordings() == old(Recordings()) && recordingJobs == old(recordingJobs)
    {
      if status == Recording || !workerRuns {
        return false;
      }
      EnqueueRecording(FinalizeTask(r, endedAt, status));
      return true;
    }

    /** The store half of a segment job. */
    method StoreSegment(task: RecordingTask, sha256: string, w: World) returns (stored: bool)
      requires Valid() && task.SegmentTask? && task.index > 0
      modifies store
      ensures Valid() && Reports() == old(Reports())
      ensures if stored then SegmentStored(old(store.tables), task, sha256, store.tables)
              else store.tables == old(store.tables)
      ensures NoFault(w.fails) ==>
        (stored <==> IsOpenRow(old(store.tables), task.r) && IsNewSegment(old(store.tables), task.r, task.index))
      ensures !stored ==> Recordings() == old(Recordings())
      ensures stored ==> RecP.IsOpen(old(Recordings()), task.r)
      ensures stored ==>
        var rows := old(Recordings()).rows;
        Recordings() == old(Recordings()).(rows := rows[task.r := rows[task.r].(segments := rows[task.r].segments + 1)])
    {
      hide Tasks, Reported, PressFlags, Rows, Ok, Apply, Effect;
      var duration := if task.endedAt > task.startedAt then task.endedAt - task.startedAt else 0;
      var id := task.r + "-" + Padded(6, task.index);
      ghost var before := store.tables;
      stored := store.AppendRecordingSegment(task.r, id, task.index, duration, sha256, w.fails);
      if stored {
        AppendingSegment(before, AppendSegment(task.r, id, task.index, duration, sha256));
      }
    }

    /** PersistRecordingSegment: any failure, of the names, the file, the hash or the database, marks the
        recording as failed; the job is never tried again. */
    method ProcessSegment(task: RecordingTask, w: World) returns (stored: bool)
      requires Valid() && task.SegmentTask? && HasInHand(task)
      modifies this`failedRecordings, this`committed, this`recordingHand, store
      ensures Valid() && Reports() == old(Reports()) && recordingHand == None
      ensures RecP.Does(old(Recordings()), if stored then RecP.Commit else RecP.Fail, Recordings())
      ensures stored ==>
        FileIsFine(task, w.file) && SegmentStored(old(store.tables), task, w.file.sha256.value, store.tables)
      ensures !stored ==> store.tables == old(store.tables)
      ensures NoFault(w.fails) ==>
        (stored <==> FileIsFine(task, w.file) && IsOpenRow(old(store.tables), task.r)
                     && IsNewSegment(old(store.tables), task.r, task.index))
    {
      hide Tasks, Reported, PressFlags, Rows, Ok, SegmentStored, IsOpenRow, IsNewSegment;
      stored := false;
      if task.r == "" || task.index <= 0 || !w.file.named || !w.file.canonical {
      } else if !w.file.sameDirectory || !w.file.inspected || w.file.finalExists || !w.file.renamed {
      } else if w.file.sized && w.file.sha256.Some? {
        stored := StoreSegment(task, w.file.sha256.value, w);
      }
      if !stored {
        failedRecordings := failedRecordings + {task.r};
      }
      committed := committed[recordingHand.value := stored];
      recordingHand := None;
    }

    /** The store half of FinalizeRecording: the status is lowered to failed without a segment or after a
        failure. */
    method TryFinalize(task: RecordingTask, lookupFails: bool, w: World) returns (done: bool)
      requires Valid() && task.FinalizeTask?
      modifies store
      ensures Valid() && Reports() == old(Reports())
      ensures !done ==> Recordings() == old(Recordings())
      ensures done ==> RecP.IsOpen(old(Recordings()), task.r)
      ensures done ==>
        var rows := old(Recordings()).rows;
        var verdict := RecP.Verdict(old(Recordings()), task.r, task.status);
        && Recordings() == old(Recordings()).(rows := rows[task.r := rows[task.r].(status := verdict)])
        && EndStored(old(store.tables), task, failedRecordings, store.tables)
      ensures !done ==> store.tables == old(store.tables)
      ensures !lookupFails && NoFault(w.fails) && RecP.IsOpen(old(Recordings()), task.r) && task.status != Recording ==>
        done
    {
      hide Tasks, Reported, PressFlags, Rows, Ok, Apply, Allowed;
      RowsKeys(store.tables);
      if lookupFails || task.r !in store.tables.recordings {
        return false;
      }
      RowIs(store.tables, task.r);
      var none := store.tables.recordings[task.r].segmentCount == 0;
      var status := if none || task.r in failedRecordings then Failed else task.status;
      ghost var before := store.tables;
      if before.recordings[task.r].status == Recording && status != Recording {
        OpenMayFinish(before, task.r, task.endedAt, status);
      }
      done := store.FinalizeRecording(task.r, task.endedAt, status, w.fails);
      if done {
        Finalizing(before, Op.FinalizeRecording(task.r, task.endedAt, status));
      }
    }

    /** FinalizeRecording: what does not work goes back to the end of the queue. */
    method ProcessFinalize(task: RecordingTask, lookupFails: bool, w: World) returns (done: bool)
      requires Valid() && task.FinalizeTask? && HasInHand(task)
      modifies this`failedRecordings, this`recordingHand, this`recordingJobs, this`tickets, store
      ensures Valid() && Reports() == old(Reports())
      ensures RecP.Does(old(Recordings()), if done then RecP.Finish else RecP.Retry, Recordings())
      ensures recordingHand == None && recordingJobs == old(recordingJobs) + if done then [] else [task]
      ensures !lookupFails && NoFault(w.fails) ==> (done <==> RecP.IsOpen(old(Recordings()), task.r))
      ensures if done then EndStored(old(store.tables), task, old(failedRecordings), store.tables)
              else store.tables == old(store.tables)
    {
      hide Tasks, Reported, PressFlags, Rows, Ok, RecP.Verdict, RecP.Does;
      assert task.status != Recording;
      hide AllAskForAnEnd, NoFault, EndStored;
      RecP.FinishIs(Recordings());
      done := TryFinalize(task, lookupFails, w);
      if done {
        failedRecordings := failedRecordings - {task.r};
        recordingHand := None;
      } else {
        PutBack(task);
      }
    }

    method PutBack(task: RecordingTask)
      requires Valid() && task.FinalizeTask? && HasInHand(task)
      modifies this`recordingHand, this`recordingJobs, this`tickets
      ensures Valid() && Reports() == old(Reports()) && RecP.Does(old(Recordings()), RecP.Retry, Recordings())
      ensures recordingHand == None && recordingJobs == old(recordingJobs) + [task]
    {
      hide Tasks, Reported, PressFlags, Rows, Ok, RecP.Does, AllAskForAnEnd;
      RecP.RetryIs(Recordings());
      recordingJobs := recordingJobs + [task];
      tickets := tickets + [recordingHand.value];
      recordingHand := None;
    }

    // -------------------------------------------------------------------- the worker loops' turns

    method SubmitPersonSnapshot(e: string)
      requires Valid()
      modifies this`jobs, this`reportJobs
      ensures Valid() && Recordings() == old(Recordings())
      ensures RP.Does(old(Reports()), RP.QueueSave(e), Reports())
      ensures jobs == old(jobs) + [Task(RP.SaveSnapshot(e), 0)] && reportJobs == old(reportJobs)
    {
      hide Tasks, Reported, PressFlags, Rows, RP.Does;
      RP.QueueSaveIs(Reports(), e);
      Enqueue(Task(RP.SaveSnapshot(e), 0));
    }

    /** One job of jobs_: all of them are done after one attempt. */
    method ProcessJob(job: RP.Job, hasPicture: bool, w: World)
      requires Valid() && RP.Held(job) in hands && !IsReport(job)
      modifies this`hands, this`jobs, this`reportJobs, this`pendingRingSnapshots, store
      ensures Valid() && Recordings() == old(Recordings()) && RP.Processed(old(Reports()), job, Reports())
      ensures if job.Submitted? then PictureHandled(old(store.tables), job.e, hasPicture, w, store.tables)
              else store.tables == old(store.tables)
      ensures jobs == old(jobs)
      ensures reportJobs
        == old(reportJobs)
           + if job.Submitted? || (job.Timeout? && job.e in old(pendingRingSnapshots))
             then [Task(RP.ReportEvent(job.e), 0)] else []
    {
      hide Tasks, Reported, PressFlags, Rows, RP.Does, RP.Next, UrlStored;
      ghost var before := Reports();
      if job.SaveSnapshot? {
        RP.SaveDoneIs(before, job.e);
        LetGo(RP.Held(job));
        return;
      }
      var prepares := BeginPrepare(job);
      if prepares {
        FinishPrepare(job.e, hasPicture && job.Submitted?, w);
        RP.Chain2(before, if job.Submitted? then RP.PrepareSubmitted(job.e) else RP.TimeoutFires(job.e),
                  RP.QueueReport(job.e), Reports());
      }
    }

    method ProcessRecordingTask(task: RecordingTask, lookupFails: bool, w: World)
      requires Valid() && HasInHand(task)
      modifies this`failedRecordings, this`committed, this`recordingHand, this`recordingJobs, this`tickets, store
      ensures Valid() && Reports() == old(Reports()) && RecP.Processed(old(Recordings()), Recordings())
      ensures recordingHand == None
      ensures RecordingTaskStored(old(store.tables), task, old(failedRecordings), lookupFails, w, store.tables)
      ensures recordingJobs == old(recordingJobs)
        || (task.FinalizeTask? && store.tables == old(store.tables) && recordingJobs == old(recordingJobs) + [task])
    {
      hide Tasks, Reported, PressFlags, Rows, RecP.Does, SegmentStored, EndStored, IsNewSegment;
      RowsOpen(store.tables, task.r);
      if task.SegmentTask? {
        var _ := ProcessSegment(task, w);
      } else {
        var _ := ProcessFinalize(task, lookupFails, w);
      }
    }

    /** One turn of worker_loop: after the expiry check, one recording job if there is any, else one job that
        is ready, else nothing. */
    method WorkerTurn(at: int, now: int, expireFails: nat -> bool, lookupFails: bool, hasPicture: bool, w: World)
        returns (worked: Option<Task>, ghost checked: Tables)
      requires Valid() && recordingHand == None
      modifies this, store
      ensures Valid()
      ensures checked == old(store.tables) || RingLapsed(old(store.tables), at, checked)
      ensures NoFault(expireFails) && HasLapsed(old(store.tables), at) ==> RingLapsed(old(store.tables), at, checked)
      ensures old(recordingJobs) != [] ==>
        && RecordingTaskStored(checked, old(recordingJobs)[0], old(failedRecordings), lookupFails, w, store.tables)
        && jobs == old(jobs) && reportJobs == old(reportJobs)
      ensures old(recordingJobs) != [] ==>
        var task, rest := old(recordingJobs)[0], old(recordingJobs)[1..];
        recordingJobs == rest || (task.FinalizeTask? && store.tables == checked && recordingJobs == rest + [task])
      ensures old(recordingJobs) == [] ==> recordingJobs == []
      ensures worked.None? ==> jobs == old(jobs) && reportJobs == old(reportJobs)
      ensures old(recordingJobs) == [] ==>
        if worked.Some? && worked.value.job.Submitted? then
          PictureHandled(checked, worked.value.job.e, hasPicture, w, store.tables)
        else store.tables == checked
      ensures worked.Some? ==>
        var job := worked.value.job;
        && IsFirstReady(old(jobs), now, worked.value, jobs)
        && reportJobs
             == old(reportJobs)
                + if job.Submitted? || (job.Timeout? && job.e in old(pendingRingSnapshots))
                  then [Task(RP.ReportEvent(job.e), 0)] else []
      ensures old(recordingJobs) != [] ==>
        worked.None? && RecP.Worked(old(Recordings()), Recordings()) && Reports() == old(Reports())
      ensures old(recordingJobs) == [] ==> Recordings() == old(Recordings())
      ensures recordingHand == None
      ensures worked.Some? ==> exists rest :: IsFirstReady(old(jobs), now, worked.value, rest)
      ensures worked.Some? ==> RP.Worked(old(Reports()), worked.value.job, Reports())
      ensures old(recordingJobs) == [] && worked.None? ==>
        Reports() == old(Reports()) && forall k | 0 <= k < |jobs| :: !jobs[k].Ready(now)
    {
      hide Tasks, Reported, PressFlags, Rows, RP.Does, RecP.Does, RP.Processed, RecP.Processed, RingLapsed, HasLapsed;
      hide PictureHandled, RecordingTaskStored;
      Expire(at, expireFails);
      checked := store.tables;
      var recording, task := TakeJob(now);
      if recording.Some? {
        ProcessRecordingTask(recording.value, lookupFails, w);
      } else if task.Some? {
        ProcessJob(task.value.job, hasPicture, w);
      }
      worked := task;
    }

    /** A report in hand is done, or put back in the queue. */
    method HandleReport(task: Task, now: int, w: World) returns (sends: bool)
      requires Valid() && RP.Held(task.job) in hands && IsReport(task.job)
      modifies this`reportJobs, this`jobs, this`hands, store
      ensures Valid() && Recordings() == old(Recordings()) && jobs == old(jobs)
      ensures RP.Processed(old(Reports()), task.job, Reports())
      ensures ReportHandled(old(store.tables), task.job, w, old(reportJobs), now, sends, reportJobs, store.tables)
    {
      hide Tasks, Reported, PressFlags, Rows, RP.Does, PressMarked;
      sends := false;
      var done;
      match task.job {
        case ReportEvent(e) => done, sends := ProcessReportEvent(e, w);
        case ReportPress(k) => done := ProcessReportPress(k, w);
      }
      if !done {
        RetryReport(task, now);
      }
    }

    /** One turn of report_worker_loop: a report that is ready is done, or back in the queue. */
    method ReportWorkerTurn(now: int, w: World) returns (worked: Option<Task>, sends: bool)
      requires Valid()
      modifies this`reportJobs, this`jobs, this`hands, store
      ensures Valid() && Recordings() == old(Recordings()) && jobs == old(jobs)
      ensures worked.Some? ==>
        exists rest :: IsFirstReady(old(reportJobs), now, worked.value, rest)
          && ReportHandled(old(store.tables), worked.value.job, w, rest, now, sends, reportJobs, store.tables)
      ensures worked.Some? ==> RP.Worked(old(Reports()), worked.value.job, Reports())
      ensures worked.None? ==> reportJobs == old(reportJobs) && store.tables == old(store.tables) && !sends
      ensures worked.None? ==>
        Reports() == old(Reports()) && forall k | 0 <= k < |reportJobs| :: !reportJobs[k].Ready(now)
    {
      hide Tasks, Reported, PressFlags, Rows, RP.Does, RP.Processed, IsFirstReady, ReportHandled;
      sends := false;
      worked := TakeReport(now);
      if worked.Some? {
        ghost var rest := reportJobs;
        sends := HandleReport(worked.value, now, w);
        assert IsFirstReady(old(reportJobs), now, worked.value, rest)
          && ReportHandled(old(store.tables), worked.value.job, w, rest, now, sends, reportJobs, store.tables);
      }
    }

    // ---------------------------------------------------------------------------------- startup

    /** The scan over the unreported events: it stops silently at the first step that fails. */
    method QueuePendingEvents(rows: seq<string>, fails: nat -> bool) returns (n: nat)
      requires Valid()
      requires Reports() == RP.Started(Reported(store.tables), PressFlags(store.tables), [], [])
      modifies this`jobs, this`reportJobs
      ensures Valid() && Recordings() == old(Recordings()) && n <= |rows|
      ensures Reports() == RP.Started(Reported(store.tables), PressFlags(store.tables), rows[..n], [])
      ensures NoFault(fails) ==> n == |rows|
    {
      hide Tasks, Reported, PressFlags, Rows, RP.Started;
      n := 0;
      assert rows[..0] == [];
      while n < |rows| && !fails(n)
        invariant n <= |rows| && Valid() && Recordings() == old(Recordings())
        invariant Reports() == RP.Started(Reported(store.tables), PressFlags(store.tables), rows[..n], [])
      {
        RP.StartedNextEvent(Reported(store.tables), PressFlags(store.tables), rows, n);
        Enqueue(Task(RP.ReportEvent(rows[n]), 0));
        n := n + 1;
      }
    }

    /** The scan over the unreported presses, likewise. */
    method QueuePendingPresses(keys: seq<PressKey>, fails: nat -> bool, ghost events: seq<string>) returns (n: nat)
      requires Valid() && Reports() == RP.Started(Reported(store.tables), PressFlags(store.tables), events, [])
      modifies this`jobs, this`reportJobs
      ensures Valid() && Recordings() == old(Recordings()) && n <= |keys|
      ensures Reports() == RP.Started(Reported(store.tables), PressFlags(store.tables), events, keys[..n])
      ensures NoFault(fails) ==> n == |keys|
    {
      hide Tasks, Reported, PressFlags, Rows, RP.Started;
      n := 0;
      assert keys[..0] == [];
      while n < |keys| && !fails(n)
        invariant n <= |keys| && Valid() && Recordings() == old(Recordings())
        invariant Reports() == RP.Started(Reported(store.tables), PressFlags(store.tables), events, keys[..n])
      {
        RP.StartedNextPress(Reported(store.tables), PressFlags(store.tables), events, keys, n);
        Enqueue(Task(RP.ReportPress(keys[n]), 0));
        n := n + 1;
      }
    }

    /** The store half of start(): recordings left open fail, and an accepted ring ends. */
    method OpenStore(reopenFails: nat -> bool, recoverFails: nat -> bool) returns (ok: bool)
      requires Valid()
      modifies store
      ensures Valid()
      ensures Reported(store.tables) == Reported(old(store.tables))
      ensures PressFlags(store.tables) == PressFlags(old(store.tables))
      ensures ok ==> !HasAccepted(store.tables)
      ensures ok ==> forall r | r in store.tables.recordings :: IsTerminal(store.tables, r)
      ensures ok ==> Rows(store.tables) == Rows(Apply(old(store.tables), Op.Reopen))
      ensures ok ==> Reopened(old(store.tables), store.tables)
      ensures NoFault(reopenFails) && NoFault(recoverFails) ==> ok
    {
      hide Tasks, Reported, PressFlags, Rows, Ok, HasAccepted;
      ghost var before := store.tables;
      Reopening(before);
      ok := store.Reopen(reopenFails);
      if !ok {
        return;
      }
      ghost var reopened := store.tables;
      var recovered;
      ok, recovered := store.RecoverStaleAcceptedRing(recoverFails);
      if ok && recovered.Some? {
        EndingRing(reopened, Op.RecoverAccepted(recovered.value));
      }
    }

    /** start(), on a fresh object: rows and keys are what complete scans would return. No report is lost
        exactly when neither scan stopped early. `last` is where the previous process left its recordings. */
    method Start(rows: seq<string>, keys: seq<PressKey>, reopenFails: nat -> bool, recoverFails: nat -> bool,
                 eventFails: nat -> bool, pressFails: nat -> bool, ghost last: RecP.State)
        returns (ok: bool)
      requires Valid() && jobs == [] && reportJobs == [] && hands == multiset{} && pendingRingSnapshots == {}
      requires recordingJobs == [] && recordingHand == None && failedRecordings == {}
      requires last.rows == Rows(store.tables) && last.submitted == submitted && last.committed == committed
      requires last.since == since && started == |submitted|
      requires RP.IsCompleteScan(rows, RP.PendingEvents(Reported(store.tables)))
      requires RP.IsCompleteScan(keys, RP.PendingPresses(PressFlags(store.tables)))
      modifies this`jobs, this`reportJobs, store
      ensures Valid()
      ensures ok ==> RecP.Does(last, RecP.Restart, Recordings()) && !HasAccepted(store.tables)
      ensures ok ==> Reopened(old(store.tables), store.tables)
      ensures ok ==> exists n, m | 0 <= n <= |rows| && 0 <= m <= |keys| ::
          && Reports() == RP.Started(Reported(old(store.tables)), PressFlags(old(store.tables)), rows[..n], keys[..m])
          && (RP.Inv(Reports()) <==> n == |rows| && m == |keys|)
          && (NoFault(eventFails) ==> n == |rows|) && (NoFault(pressFails) ==> m == |keys|)
    {
      hide Tasks, Reported, PressFlags, Rows, Ok, HasAccepted, RP.Started, RP.Inv, RP.IsCompleteScan;
      ghost var before := store.tables;
      Reopening(before);
      ok := OpenStore(reopenFails, recoverFails);
      if !ok {
        return;
      }
      assert Reports() == RP.Started(Reported(before), PressFlags(before), [], []) by {
        RP.StartedEmpty(Reported(before), PressFlags(before));
        NoTasks();
      }
      var n := QueuePendingEvents(rows, eventFails);
      var m := QueuePendingPresses(keys, pressFails, rows[..n]);
      RP.PartialScanLosesReports(Reported(before), PressFlags(before), rows, keys, n, m);
    }
  }

  lemma NoTasks()
    ensures Tasks([]) + Tasks([]) + multiset{} == multiset{}
  {
  }

  lemma DueIs(t: Tables, e: string, at: int)
    requires Ok(t) && IsDue(t, e, at)
    ensures Apply(t, Op.Expire(e, at)) == CheckExpiry(t, at)
  {
    OnlyDue(t, e, at);
  }
}
