/** The recording jobs of src/events/device_event_processor.cpp: one queue, one worker, and the recording
    rows they act on, over any number of processes. A ticket is the position of a job in the list of all
    jobs ever submitted. That list, the outcomes, the first ticket of the process now running, and that of
    the process each recording was begun in are history: the code keeps none of it. */
module RecordingProtocol {
  import opened Options
  import opened StoreTables

  datatype RecordingJob =
    | Segment(r: string)
    | Finalize(r: string, wanted: Status)

  datatype Row = Row(status: Status, segments: nat)

  datatype State = State(
    rows: map<string, Row>,
    queue: seq<nat>,
    hand: Option<nat>,
    failed: set<string>,
    submitted: seq<RecordingJob>,
    committed: map<nat, bool>,
    started: nat,
    since: map<string, nat>)

  const FRESH: State := State(map[], [], None, {}, [], map[], 0, map[])

  /** `Commit` and `Fail` end a segment job; `Finish` and `Retry` a finalize job. */
  datatype Step =
    | Begin(r: string)
    | Submit(job: RecordingJob)
    | Take
    | Commit
    | Fail
    | Finish
    | Retry
    | Restart

  function JobInHand(s: State): RecordingJob
    requires s.hand.Some? && s.hand.value < |s.submitted|
  {
    s.submitted[s.hand.value]
  }

  predicate Busy(s: State) { s.hand.Some? && s.hand.value < |s.submitted| }

  predicate IsOpen(s: State, r: string) { r in s.rows && s.rows[r].status == Recording }

  predicate Enabled(s: State, step: Step) {
    match step
    case Begin(r) => r !in s.rows
    case Submit(Segment(_)) => true
    case Submit(Finalize(_, wanted)) => wanted != Recording
    case Take => s.hand.None? && s.queue != []
    case Commit => Busy(s) && JobInHand(s).Segment? && IsOpen(s, JobInHand(s).r)
    case Fail => Busy(s) && JobInHand(s).Segment?
    case Finish => Busy(s) && JobInHand(s).Finalize? && IsOpen(s, JobInHand(s).r)
    case Retry => Busy(s) && JobInHand(s).Finalize?
    case Restart => true
  }

  /** The status a finalize job writes: what was asked for, unless there is no segment or one failed. */
  function Verdict(s: State, r: string, wanted: Status): Status
    requires r in s.rows
  {
    if s.rows[r].segments == 0 || r in s.failed then Failed else wanted
  }

  function Next(s: State, step: Step): State
    requires Enabled(s, step)
  {
    match step
    case Begin(r) => s.(rows := s.rows[r := Row(Recording, 0)], since := s.since[r := s.started])
    case Submit(job) => s.(submitted := s.submitted + [job], queue := s.queue + [|s.submitted|])
    case Take => s.(hand := Some(s.queue[0]), queue := s.queue[1..])
    case Commit =>
      var r := JobInHand(s).r;
      s.(rows := s.rows[r := s.rows[r].(segments := s.rows[r].segments + 1)],
         committed := s.committed[s.hand.value := true], hand := None)
    case Fail =>
      s.(failed := s.failed + {JobInHand(s).r}, committed := s.committed[s.hand.value := false], hand := None)
    case Finish =>
      var job := JobInHand(s);
      s.(rows := s.rows[job.r := s.rows[job.r].(status := Verdict(s, job.r, job.wanted))],
         failed := s.failed - {job.r}, hand := None)
    case Retry => s.(queue := s.queue + [s.hand.value], hand := None)
    case Restart =>
      s.(rows := map r | r in s.rows ::
           if s.rows[r].status == Recording then s.rows[r].(status := Failed) else s.rows[r],
         queue := [], hand := None, failed := {}, started := |s.submitted|)
  }

  /** The step happens and leads from s to s'. */
  predicate Does(s: State, step: Step, s': State) { Enabled(s, step) && s' == Next(s, step) }

  lemma FinishIs(s: State)
    requires Busy(s) && JobInHand(s).Finalize?
    ensures var job := JobInHand(s);
      IsOpen(s, job.r) ==>
        Does(s, Finish, s.(rows := s.rows[job.r := s.rows[job.r].(status := Verdict(s, job.r, job.wanted))],
                           failed := s.failed - {job.r}, hand := None))
  {
  }

  lemma RetryIs(s: State)
    requires Busy(s) && JobInHand(s).Finalize?
    ensures Does(s, Retry, s.(queue := s.queue + [s.hand.value], hand := None))
  {
  }

  // --------------------------------------------------------------------------------- invariants

  predicate IsFinalize(s: State, i: nat) { i < |s.submitted| && s.submitted[i].Finalize? }

  predicate IsSegment(s: State, i: nat) { i < |s.submitted| && s.submitted[i].Segment? }

  predicate IsSegmentOf(s: State, i: nat, r: string) { i < |s.submitted| && s.submitted[i] == Segment(r) }

  /** Tickets in memory are unique, in range and of this process, and outcomes are those of segment jobs no
      longer in memory. */
  ghost predicate QueueOk(s: State) { IsOfThisProcess(s) && IsUnique(s) && forall i | i in s.committed :: IsSegment(s, i) }

  ghost predicate IsOfThisProcess(s: State) {
    && s.started <= |s.submitted|
    && (forall p | 0 <= p < |s.queue| :: s.started <= s.queue[p] < |s.submitted| && s.queue[p] !in s.committed)
    && (s.hand.Some? ==> s.started <= s.hand.value < |s.submitted| && s.hand.value !in s.committed)
  }

  ghost predicate IsUnique(s: State) {
    && (forall p, q | 0 <= p < q < |s.queue| :: s.queue[p] != s.queue[q])
    && (s.hand.Some? ==> s.hand.value !in s.queue)
  }

  /** No segment job of this process is forgotten. */
  ghost predicate PendingQueued(s: State) {
    forall i: nat, r | IsSegmentOf(s, i, r) && s.started <= i && i !in s.committed :: i in s.queue || s.hand == Some(i)
  }

  /** A finalize job never gets ahead of a segment job submitted before it. */
  ghost predicate NoOvertaking(s: State) {
    && (forall p, q | 0 <= p < q < |s.queue| && IsFinalize(s, s.queue[p]) && IsSegment(s, s.queue[q]) ::
          s.queue[p] < s.queue[q])
    && (s.hand.Some? && IsFinalize(s, s.hand.value) ==>
          forall q | 0 <= q < |s.queue| && IsSegment(s, s.queue[q]) :: s.hand.value < s.queue[q])
  }

  ghost predicate HasCommit(s: State, r: string) {
    exists i | i in s.committed :: IsSegmentOf(s, i, r) && s.committed[i]
  }

  /** A segment job of r has failed in this process. */
  ghost predicate HasFailure(s: State, r: string) {
    exists i | i in s.committed :: s.started <= i && IsSegmentOf(s, i, r) && !s.committed[i]
  }

  /** The segment count tells whether a segment was committed; until a recording is terminal, even before it
      is registered, the failure mark tells whether one has failed in this process; and an open recording was
      begun in this process. */
  ghost predicate MarksExact(s: State) {
    && (forall r :: HasCommit(s, r) <==> r in s.rows && s.rows[r].segments > 0)
    && (forall r | r !in s.rows || IsOpen(s, r) :: r in s.failed <==> HasFailure(s, r))
    && (forall r | IsOpen(s, r) :: r in s.since && s.since[r] == s.started)
  }

  /** Job f asked for this verdict, and every segment of r submitted before it, by the process that began r,
      was committed. */
  ghost predicate Justified(s: State, r: string, f: nat, verdict: Status) {
    && f < |s.submitted| && s.submitted[f] == Finalize(r, verdict) && r in s.since
    && (forall i: nat | s.since[r] <= i < f && IsSegmentOf(s, i, r) :: i in s.committed && s.committed[i])
  }

  /** A recording is finalized or interrupted only with at least one segment, and only by a job whose
      earlier segments were all committed. */
  ghost predicate VerdictsJustified(s: State) {
    forall r | r in s.rows && (s.rows[r].status == Finalized || s.rows[r].status == Interrupted) ::
      s.rows[r].segments > 0 && exists f :: Justified(s, r, f, s.rows[r].status)
  }

  ghost predicate Inv(s: State) {
    QueueOk(s) && PendingQueued(s) && NoOvertaking(s) && MarksExact(s) && VerdictsJustified(s)
  }

  lemma UniqueKept(s: State, step: Step)
    requires IsOfThisProcess(s) && IsUnique(s) && Enabled(s, step)
    ensures IsUnique(Next(s, step))
  {
    match step {
      case Submit(_) =>
      case Take =>
      case Retry =>
      case _ =>
    }
  }

  lemma QueueOkKept(s: State, step: Step)
    requires QueueOk(s) && Enabled(s, step)
    ensures QueueOk(Next(s, step))
  {
    UniqueKept(s, step);
    assert s.hand.Some? ==> forall p | 0 <= p < |s.queue| :: s.queue[p] != s.hand.value;
    hide IsUnique;
    match step {
      case Begin(_) =>
      case Submit(_) =>
      case Take =>
      case Commit =>
      case Fail =>
      case Finish =>
      case Retry =>
      case Restart =>
    }
  }

  lemma PendingQueuedKept(s: State, step: Step)
    requires QueueOk(s) && PendingQueued(s) && Enabled(s, step)
    ensures PendingQueued(Next(s, step))
  {
    var s' := Next(s, step);
    forall i: nat, r | IsSegmentOf(s', i, r) && s'.started <= i && i !in s'.committed
      ensures i in s'.queue || s'.hand == Some(i)
    {
      if i < |s.submitted| {
        assert IsSegmentOf(s, i, r);
        if i in s.queue {
          var p :| 0 <= p < |s.queue| && s.queue[p] == i;
          assert step == Take && p > 0 ==> s'.queue[p - 1] == i;
          assert step != Take ==> s'.queue[p] == i;
        }
      } else {
        assert s'.queue[|s.queue|] == i;
      }
    }
  }

  lemma TakeKeepsOrder(s: State)
    requires NoOvertaking(s) && Enabled(s, Take)
    ensures NoOvertaking(Next(s, Take))
  {
  }

  lemma RetryKeepsOrder(s: State)
    requires NoOvertaking(s) && Enabled(s, Retry)
    ensures NoOvertaking(Next(s, Retry))
  {
  }

  lemma SubmitKeepsOrder(s: State, job: RecordingJob)
    requires QueueOk(s) && NoOvertaking(s) && Enabled(s, Submit(job))
    ensures NoOvertaking(Next(s, Submit(job)))
  {
    var s' := Next(s, Submit(job));
    assert forall p | 0 <= p < |s.queue| :: IsSegment(s', s.queue[p]) == IsSegment(s, s.queue[p])
                                            && IsFinalize(s', s.queue[p]) == IsFinalize(s, s.queue[p]);
  }

  lemma NoOvertakingKept(s: State, step: Step)
    requires QueueOk(s) && NoOvertaking(s) && Enabled(s, step)
    ensures NoOvertaking(Next(s, step))
  {
    match step
    case Take =>
      hide QueueOk, NoOvertaking, Next, Enabled;
      TakeKeepsOrder(s);
    case Retry =>
      hide QueueOk, NoOvertaking, Next, Enabled;
      RetryKeepsOrder(s);
    case Submit(job) =>
      hide QueueOk, NoOvertaking, Next, Enabled;
      SubmitKeepsOrder(s, job);
    case _ =>
      hide QueueOk;
  }

  /** How a step changes which recordings have a committed or a failed segment. */
  lemma CommitsAfter(s: State, step: Step, r: string)
    requires QueueOk(s) && Enabled(s, step)
    ensures HasCommit(Next(s, step), r) <==> HasCommit(s, r) || (step == Commit && JobInHand(s).r == r)
  {
    var s' := Next(s, step);
    if HasCommit(s, r) {
      var i :| i in s.committed && IsSegmentOf(s, i, r) && s.committed[i];
      assert i in s'.committed && IsSegmentOf(s', i, r) && s'.committed[i];
    }
    if step == Commit && JobInHand(s).r == r {
      assert s.hand.value in s'.committed && IsSegmentOf(s', s.hand.value, r) && s'.committed[s.hand.value];
    }
    forall i | i in s'.committed && IsSegmentOf(s', i, r) && s'.committed[i]
      ensures (i in s.committed && IsSegmentOf(s, i, r) && s.committed[i])
        || (s.hand == Some(i) && IsSegmentOf(s, i, r) && step == Commit)
    {
    }
  }

  lemma FailuresAfter(s: State, step: Step, r: string)
    requires QueueOk(s) && Enabled(s, step)
    ensures HasFailure(Next(s, step), r) <==>
      step != Restart && (HasFailure(s, r) || (step == Fail && JobInHand(s).r == r))
  {
    var s' := Next(s, step);
    if HasFailure(s, r) && step != Restart {
      var i :| i in s.committed && s.started <= i && IsSegmentOf(s, i, r) && !s.committed[i];
      assert i in s'.committed && IsSegmentOf(s', i, r) && !s'.committed[i];
    }
    if step == Fail && JobInHand(s).r == r {
      assert s.hand.value in s'.committed && IsSegmentOf(s', s.hand.value, r) && !s'.committed[s.hand.value];
    }
    forall i | i in s'.committed && s'.started <= i && IsSegmentOf(s', i, r) && !s'.committed[i]
      ensures step != Restart
      ensures (i in s.committed && s.started <= i && IsSegmentOf(s, i, r) && !s.committed[i])
        || (s.hand == Some(i) && IsSegmentOf(s, i, r) && step == Fail)
    {
    }
  }

  lemma MarksExactKept(s: State, step: Step)
    requires QueueOk(s) && MarksExact(s) && Enabled(s, step)
    ensures MarksExact(Next(s, step))
  {
    hide QueueOk, HasCommit, HasFailure;
    var s' := Next(s, step);
    forall r
      ensures HasCommit(s', r) <==> r in s'.rows && s'.rows[r].segments > 0
      ensures r !in s'.rows || IsOpen(s', r) ==> (r in s'.failed <==> HasFailure(s', r))
      ensures IsOpen(s', r) ==> r in s'.since && s'.since[r] == s'.started
    {
      CommitsAfter(s, step, r);
      FailuresAfter(s, step, r);
    }
  }

  /** When a finalize job is in hand, every earlier segment job of its process has an outcome. */
  lemma EarlierSegmentsDone(s: State, i: nat)
    requires QueueOk(s) && PendingQueued(s) && NoOvertaking(s) && Enabled(s, Finish)
    requires s.started <= i < s.hand.value && IsSegment(s, i)
    ensures i in s.committed
  {
    assert IsSegmentOf(s, i, s.submitted[i].r);
    assert IsFinalize(s, s.hand.value);
    forall q | 0 <= q < |s.queue| ensures s.queue[q] != i {
      assert IsSegment(s, s.queue[q]) ==> s.hand.value < s.queue[q];
    }
  }

  lemma JustifiedKept(s: State, step: Step, r: string, f: nat, verdict: Status)
    requires QueueOk(s) && Enabled(s, step) && Justified(s, r, f, verdict) && r in s.rows
    ensures Justified(Next(s, step), r, f, verdict)
  {
  }

  lemma FinishJustified(s: State)
    requires Inv(s) && Enabled(s, Finish)
    ensures var job, s' := JobInHand(s), Next(s, Finish);
      s'.rows[job.r].status != Failed ==>
        s'.rows[job.r].segments > 0 && Justified(s', job.r, s.hand.value, s'.rows[job.r].status)
  {
    var job, s' := JobInHand(s), Next(s, Finish);
    forall i: nat | s.started <= i < s.hand.value && IsSegmentOf(s, i, job.r) && !HasFailure(s, job.r)
      ensures i in s.committed && s.committed[i]
    {
      EarlierSegmentsDone(s, i);
    }
  }

  lemma VerdictsJustifiedKept(s: State, step: Step)
    requires Inv(s) && Enabled(s, step)
    ensures VerdictsJustified(Next(s, step))
  {
    var s' := Next(s, step);
    forall r | r in s'.rows && (s'.rows[r].status == Finalized || s'.rows[r].status == Interrupted)
      ensures s'.rows[r].segments > 0 && exists f :: Justified(s', r, f, s'.rows[r].status)
    {
      if step == Finish && JobInHand(s).r == r {
        FinishJustified(s);
      } else {
        assert r in s.rows && s.rows[r].status == s'.rows[r].status;
        var f :| Justified(s, r, f, s.rows[r].status);
        JustifiedKept(s, step, r, f, s.rows[r].status);
      }
    }
  }

  lemma NextKeepsInv(s: State, step: Step)
    requires Inv(s) && Enabled(s, step)
    ensures Inv(Next(s, step))
  {
    hide QueueOk, PendingQueued, NoOvertaking, MarksExact, VerdictsJustified, Next, Enabled;
    QueueOkKept(s, step);
    PendingQueuedKept(s, step);
    NoOvertakingKept(s, step);
    MarksExactKept(s, step);
    VerdictsJustifiedKept(s, step);
  }

  // --------------------------------------------------------------------------------- whole runs

  ghost predicate IsRun(s: State, steps: seq<Step>) {
    steps == [] || (IsRun(s, steps[..|steps| - 1])
                    && Enabled(Reached(s, steps[..|steps| - 1]), steps[|steps| - 1]))
  }

  ghost function Reached(s: State, steps: seq<Step>): State {
    if steps == [] then s
    else
      var before := Reached(s, steps[..|steps| - 1]);
      if Enabled(before, steps[|steps| - 1]) then Next(before, steps[|steps| - 1]) else before
  }

  /** Over every run, restarts included: a recording is finalized or interrupted only with a segment, by a
      job that asked for it and whose earlier segments were all committed. */
  lemma {:induction false} EveryVerdictJustified(steps: seq<Step>)
    requires IsRun(FRESH, steps)
    ensures Inv(Reached(FRESH, steps))
  {
    hide Inv, Enabled, Next;
    if steps != [] {
      EveryVerdictJustified(steps[..|steps| - 1]);
      NextKeepsInv(Reached(FRESH, steps[..|steps| - 1]), steps[|steps| - 1]);
    } else {
      FreshInv();
    }
  }

  lemma FreshInv()
    ensures Inv(FRESH)
  {
  }

  ghost predicate Reaches(s: State, s': State) { exists steps :: IsRun(s, steps) && Reached(s, steps) == s' }

  lemma ReachesSame(s: State)
    ensures Reaches(s, s)
  {
    assert IsRun(s, []) && Reached(s, []) == s;
  }

  lemma ReachesNext(s: State, m: State, step: Step, s': State)
    requires Reaches(s, m) && Does(m, step, s')
    ensures Reaches(s, s')
  {
    var steps :| IsRun(s, steps) && Reached(s, steps) == m;
    var more := steps + [step];
    assert more[..|more| - 1] == steps;
    hide Enabled, Next;
    assert IsRun(s, more) && Reached(s, more) == s';
  }

  /** What the worker makes of the job it has in hand. */
  predicate Processed(s: State, s': State) {
    Does(s, Commit, s') || Does(s, Fail, s') || Does(s, Finish, s') || Does(s, Retry, s')
  }

  ghost predicate Worked(s: State, s': State) { exists m :: Does(s, Take, m) && Processed(m, s') }

  lemma WorkedReaches(s: State, s': State)
    requires Worked(s, s')
    ensures Reaches(s, s')
  {
    var m :| Does(s, Take, m) && Processed(m, s');
    ReachesSame(s);
    ReachesNext(s, s, Take, m);
    hide Reaches, Enabled, Next;
    if Does(m, Commit, s') {
      ReachesNext(s, m, Commit, s');
    } else if Does(m, Fail, s') {
      ReachesNext(s, m, Fail, s');
    } else if Does(m, Finish, s') {
      ReachesNext(s, m, Finish, s');
    } else {
      ReachesNext(s, m, Retry, s');
    }
  }

  /** Exactly when a finalize job writes `failed`: it was asked to, no segment of the recording was ever
      committed, or one has failed in this process. */
  lemma FailedIff(s: State)
    requires Inv(s) && Enabled(s, Finish)
    ensures var job := JobInHand(s);
      Next(s, Finish).rows[job.r].status
        == if !HasCommit(s, job.r) || HasFailure(s, job.r) then Failed else job.wanted
  {
    hide HasCommit, HasFailure, QueueOk;
  }

  predicate IsTerminal(s: State, r: string) { r in s.rows && s.rows[r].status != Recording }

  lemma {:induction false} TerminalForever(s: State, steps: seq<Step>, r: string)
    requires IsRun(s, steps) && IsTerminal(s, r)
    ensures IsTerminal(Reached(s, steps), r) && Reached(s, steps).rows[r] == s.rows[r]
  {
    hide Next, Enabled;
    if steps != [] {
      TerminalForever(s, steps[..|steps| - 1], r);
      BegunOnce(Reached(s, steps[..|steps| - 1]), steps[|steps| - 1]);
      RowAfter(Reached(s, steps[..|steps| - 1]), steps[|steps| - 1], r);
    }
  }

  /** What a step can do to a recording that is not open: begin it, if it is unknown. */
  lemma RowAfter(s: State, step: Step, r: string)
    requires Enabled(s, step) && !IsOpen(s, r) && step != Begin(r)
    ensures r in Next(s, step).rows <==> r in s.rows
    ensures r in s.rows ==> Next(s, step).rows[r] == s.rows[r]
  {
  }

  /** A recording that is open when the process ends is failed ever after, with the segments it had; none of
      its jobs, and none submitted later, changes that. */
  lemma {:induction false} OpenAtRestartFailedForever(s: State, steps: seq<Step>, r: string)
    requires IsOpen(s, r) && IsRun(Next(s, Restart), steps)
    ensures r in Reached(Next(s, Restart), steps).rows
    ensures Reached(Next(s, Restart), steps).rows[r] == Row(Failed, s.rows[r].segments)
  {
    TerminalForever(Next(s, Restart), steps, r);
  }

  // ----------------------------------------------------------- how long a finalize job is retried

  predicate InMemory(s: State, f: nat) { f in s.queue || s.hand == Some(f) }

  /** A finalize job leaves memory by being finished, while its recording is open, or with the process. */
  predicate LetsGo(s: State, step: Step, f: nat) { step == Restart || (step == Finish && s.hand == Some(f)) }

  lemma LeavesMemory(s: State, step: Step, f: nat)
    requires QueueOk(s) && IsFinalize(s, f) && InMemory(s, f) && Enabled(s, step)
    ensures IsFinalize(Next(s, step), f) && Next(s, step).submitted[f] == s.submitted[f]
    ensures InMemory(Next(s, step), f) <==> !LetsGo(s, step, f)
    ensures step == Finish && LetsGo(s, step, f) ==> IsOpen(s, s.submitted[f].r)
  {
    var s' := Next(s, step);
    if f in s.queue {
      var p :| 0 <= p < |s.queue| && s.queue[p] == f;
      assert step == Take && p > 0 ==> s'.queue[p - 1] == f;
      assert step != Take && step != Restart ==> s'.queue[p] == f;
    } else if step == Retry {
      assert s'.queue[|s.queue|] == f;
    }
  }

  lemma StaysOut(s: State, step: Step, f: nat)
    requires QueueOk(s) && IsFinalize(s, f) && !InMemory(s, f) && Enabled(s, step)
    ensures IsFinalize(Next(s, step), f) && !InMemory(Next(s, step), f)
  {
  }

  /** No step of the run lets job f go. */
  ghost predicate HoldsOn(s: State, steps: seq<Step>, f: nat) {
    forall i | 0 <= i < |steps| :: !LetsGo(Reached(s, steps[..i]), steps[i], f)
  }

  lemma HoldsOnMore(s: State, steps: seq<Step>, f: nat)
    requires steps != []
    ensures var shorter, last := steps[..|steps| - 1], steps[|steps| - 1];
      HoldsOn(s, steps, f) <==> HoldsOn(s, shorter, f) && !LetsGo(Reached(s, shorter), last, f)
  {
    hide Reached, LetsGo;
    var shorter, n := steps[..|steps| - 1], |steps| - 1;
    assert forall i | 0 <= i <= n :: steps[..i] == shorter[..i];
    assert shorter[..n] == shorter;
  }

  /** How long a finalize job is retried, over every run: until the first step that lets it go. */
  lemma {:induction false} RetriedUntil(s: State, steps: seq<Step>, f: nat)
    requires Inv(s) && IsFinalize(s, f) && InMemory(s, f) && IsRun(s, steps)
    ensures IsFinalize(Reached(s, steps), f) && Inv(Reached(s, steps))
    ensures InMemory(Reached(s, steps), f) <==> HoldsOn(s, steps, f)
  {
    hide Next, Enabled, InMemory, LetsGo, Inv, HoldsOn, IsFinalize;
    if steps != [] {
      var shorter, last := steps[..|steps| - 1], steps[|steps| - 1];
      RetriedUntil(s, shorter, f);
      NextKeepsInv(Reached(s, shorter), last);
      InMemoryAfter(Reached(s, shorter), last, f);
      HoldsOnMore(s, steps, f);
    } else {
      NothingLetsGo(s, f);
    }
  }

  lemma NothingLetsGo(s: State, f: nat)
    ensures HoldsOn(s, [], f)
  {
  }

  lemma InMemoryAfter(s: State, step: Step, f: nat)
    requires Inv(s) && IsFinalize(s, f) && Enabled(s, step)
    ensures IsFinalize(Next(s, step), f)
    ensures InMemory(Next(s, step), f) <==> InMemory(s, f) && !LetsGo(s, step, f)
  {
    hide QueueOk, PendingQueued, NoOvertaking, MarksExact, VerdictsJustified, Next, Enabled, InMemory, LetsGo;
    if InMemory(s, f) {
      LeavesMemory(s, step, f);
    } else {
      StaysOut(s, step, f);
    }
  }

  lemma {:induction false} NotOpenedAlong(s: State, steps: seq<Step>, r: string)
    requires IsRun(s, steps) && !IsOpen(s, r) && (r in s.rows || Begin(r) !in steps)
    ensures !IsOpen(Reached(s, steps), r) && (r in s.rows ==> r in Reached(s, steps).rows)
  {
    hide Next, Enabled;
    if steps != [] {
      NotOpenedAlong(s, steps[..|steps| - 1], r);
      BegunOnce(Reached(s, steps[..|steps| - 1]), steps[|steps| - 1]);
      assert steps[|steps| - 1] in steps;
      RowAfter(Reached(s, steps[..|steps| - 1]), steps[|steps| - 1], r);
    }
  }

  lemma BegunOnce(s: State, step: Step)
    requires Enabled(s, step)
    ensures step.Begin? ==> step.r !in s.rows
  {
  }

  /** A finalize job for a recording that is terminal, or that is unknown and stays so, is retried until the
      process ends. */
  lemma RetriedForever(s: State, steps: seq<Step>, f: nat)
    requires Inv(s) && IsFinalize(s, f) && InMemory(s, f) && IsRun(s, steps) && Restart !in steps
    requires var r := s.submitted[f].r; !IsOpen(s, r) && (r in s.rows || Begin(r) !in steps)
    ensures InMemory(Reached(s, steps), f)
  {
    hide Next, Enabled, InMemory, Inv, LetsGo;
    RetriedUntil(s, steps, f);
    forall i | 0 <= i < |steps| ensures !LetsGo(Reached(s, steps[..i]), steps[i], f) {
      RunPrefix(s, steps, i);
      NotOpenedAlong(s, steps[..i], s.submitted[f].r);
      SubmittedStays(s, steps[..i], f);
      assert steps[i] in steps;
      KeptUnlessOpen(Reached(s, steps[..i]), steps[i], f);
    }
  }

  lemma {:induction false} RunPrefix(s: State, steps: seq<Step>, n: nat)
    requires IsRun(s, steps) && n < |steps|
    ensures IsRun(s, steps[..n]) && Enabled(Reached(s, steps[..n]), steps[n])
  {
    hide Enabled;
    if n < |steps| - 1 {
      var shorter := steps[..|steps| - 1];
      RunPrefix(s, shorter, n);
      assert shorter[..n] == steps[..n];
    }
  }

  lemma {:induction false} SubmittedStays(s: State, steps: seq<Step>, f: nat)
    requires IsRun(s, steps) && f < |s.submitted|
    ensures f < |Reached(s, steps).submitted| && Reached(s, steps).submitted[f] == s.submitted[f]
  {
    if steps != [] {
      SubmittedStays(s, steps[..|steps| - 1], f);
    }
  }

  lemma KeptUnlessOpen(s: State, step: Step, f: nat)
    requires Enabled(s, step) && step != Restart && f < |s.submitted| && !IsOpen(s, s.submitted[f].r)
    ensures !LetsGo(s, step, f)
  {
  }

  /** It does happen: a recording is finalized twice, and the second job stays. */
  lemma FinalizedTwice(r: string) returns (steps: seq<Step>)
    ensures IsRun(FRESH, steps) && Restart !in steps
    ensures var s := Reached(FRESH, steps);
      IsTerminal(s, r) && IsFinalize(s, 1) && s.submitted[1].r == r && InMemory(s, 1)
  {
    var job := Finalize(r, Finalized);
    steps := [];
    assert IsRun(FRESH, steps) && Reached(FRESH, steps) == FRESH;
    hide IsRun, Reached;
    var s := FRESH;
    steps, s := Grow(FRESH, steps, s, Begin(r));
    steps, s := Grow(FRESH, steps, s, Submit(job));
    steps, s := Grow(FRESH, steps, s, Submit(job));
    steps, s := Grow(FRESH, steps, s, Take);
    steps, s := Grow(FRESH, steps, s, Finish);
  }

  /** A run, and where it leads. */
  lemma Grow(start: State, steps: seq<Step>, s: State, step: Step) returns (more: seq<Step>, s': State)
    requires IsRun(start, steps) && Reached(start, steps) == s && Enabled(s, step)
    ensures more == steps + [step] && s' == Next(s, step)
    ensures IsRun(start, more) && Reached(start, more) == s'
  {
    hide Enabled, Next;
    more, s' := steps + [step], Next(s, step);
    assert more[..|more| - 1] == steps;
  }
}
