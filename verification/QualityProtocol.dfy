/** Switching the quality of a live stream: the state part of src/device/live_webrtc_session.cpp. Requests,
    answers, RTP probes, the watchdog, pipeline errors and stop() race; every section under the mutex is one
    step. Accepted switches are numbered; `settled`, `accepted`, `fired` and `discarded` are history, and so is
    the switch each probe thread saw when it looked. */
module QualityProtocol {
  import opened Options

  datatype Profile = Profile(width: nat, height: nat, bitrate: nat)

  /** profile_for_quality: an unknown quality gets the 720p profile. */
  function ProfileFor(quality: string): Profile {
    if quality == "360p" then Profile(640, 360, 450000)
    else if quality == "720p" then Profile(1280, 720, 1000000)
    else if quality == "1080p" then Profile(1920, 1080, 2000000)
    else if quality == "1440p" then Profile(2560, 1440, 3500000)
    else Profile(1280, 720, 1000000)
  }

  predicate IsOffered(quality: string) { quality in {"360p", "720p", "1080p", "1440p"} }

  datatype Pixels = Packed422 | Planar420 | Unsupported

  /** raw_frame_size */
  function RawFrameSize(pixels: Pixels, width: nat, height: nat): nat {
    match pixels
    case Packed422 => width * height * 2
    case Planar420 => width * height * 3 / 2
    case Unsupported => 0
  }

  /** What the appsrc is fed with: its size, pixel format and frame size, all zero without a session. */
  datatype Appsrc = Appsrc(width: nat, height: nat, frameSize: nat, pixels: Pixels)

  const NO_APPSRC: Appsrc := Appsrc(0, 0, 0, Unsupported)

  function AppsrcFor(quality: string, pixels: Pixels): Appsrc {
    var p := ProfileFor(quality);
    Appsrc(p.width, p.height, RawFrameSize(pixels, p.width, p.height), pixels)
  }

  datatype Pending = Pending(ticket: nat, previous: string, quality: string)

  /** A thread past its lock that still owes a callback; ready tells, once known, whether it resumes the video. */
  datatype Finishing = Finishing(ok: bool, previous: string, quality: string, ready: Option<bool>)

  datatype Firing = Firing(ticket: nat, ok: bool, quality: string, previous: string)

  datatype State = State(
    open: bool,
    active: bool,
    quality: string,
    appsrc: Appsrc,
    pending: Option<Pending>,
    answered: bool,
    paused: bool,
    branch: Option<Profile>,
    requesters: map<nat, string>,
    probes: map<nat, nat>,
    resumers: nat,
    finishing: map<nat, Finishing>,
    settled: string,
    accepted: nat,
    fired: seq<Firing>,
    discarded: set<nat>)

  const CLOSED: State :=
    State(false, false, "", NO_APPSRC, None, false, false, None, map[], map[], 0, map[], "", 0, [], {})

  datatype Step =
    | Start(quality: string, pixels: Pixels)
    | Activate
    | Request(quality: string)
    | RequestSame
    | Reconfigure(ticket: nat, ok: bool)
    | Answer
    | Resume
    | ProbeSees(probe: nat)
    | TakeSuccess(probe: nat)
    | TakeFailure
    | RollBack(ticket: nat, ok: bool)
    | Fire(ticket: nat)
    | Pause
    | Stop

  predicate Enabled(s: State, step: Step) {
    match step
    case Start(_, _) => !s.open
    case Activate => s.open
    case Request(q) => s.open && s.active && s.pending.None? && IsOffered(q) && q != s.quality
    case RequestSame => s.open && s.active && s.pending.None? && IsOffered(s.quality)
    case Reconfigure(t, ok) => t in s.requesters && (ok ==> s.open)
    case Answer => s.open
    case Resume => s.resumers > 0
    case ProbeSees(p) => s.pending.Some? && s.answered && p !in s.probes
    case TakeSuccess(p) => p in s.probes
    case TakeFailure => s.pending.Some?
    case RollBack(t, ok) => t in s.finishing && s.finishing[t].ready.None? && (ok ==> s.open)
    case Fire(t) => t in s.finishing && s.finishing[t].ready.Some?
    case Pause => true
    case Stop => true
  }

  function Sized(s: State, quality: string): State {
    s.(quality := quality, appsrc := AppsrcFor(quality, s.appsrc.pixels))
  }

  /** The section under the lock in finish_quality_switch: the pending switch is taken out, and on failure
      the previous quality is back in force. */
  function Taken(s: State, ok: bool): State
    requires s.pending.Some?
  {
    var p := s.pending.value;
    var f := Finishing(ok, p.previous, p.quality, if ok then Some(true) else None);
    var s1 := s.(pending := None, answered := false, finishing := s.finishing[p.ticket := f],
                 settled := if ok then p.quality else s.settled);
    if ok then s1 else Sized(s1, p.previous)
  }

  /** The section under the lock in stop. */
  function Stopped(s: State): State {
    s.(open := false, active := false, appsrc := NO_APPSRC,
       pending := None, answered := false, paused := false, branch := None,
       discarded := s.discarded + Dropped(s.pending))
  }

  function Next(s: State, step: Step): State
    requires Enabled(s, step)
  {
    match step
    case Start(q, pixels) =>
      Sized(s.(open := true, active := false, appsrc := s.appsrc.(pixels := pixels), pending := None, answered := false,
               paused := false, branch := Some(ProfileFor(q)), settled := q), q)
    case Activate => s.(active := true)
    case Request(q) =>
      Sized(s.(pending := Some(Pending(s.accepted, s.quality, q)), answered := false, paused := true,
               requesters := s.requesters[s.accepted := q], accepted := s.accepted + 1), q)
    case RequestSame =>
      s.(finishing := s.finishing[s.accepted := Finishing(true, s.quality, s.quality, Some(false))],
         accepted := s.accepted + 1)
    case Reconfigure(t, ok) =>
      s.(branch := if ok then Some(ProfileFor(s.requesters[t])) else None, requesters := s.requesters - {t})
    case Answer => if s.pending.Some? then s.(answered := true, resumers := s.resumers + 1) else s
    case Resume => s.(resumers := s.resumers - 1, paused := false)
    case ProbeSees(p) => s.(probes := s.probes[p := s.pending.value.ticket])
    case TakeSuccess(p) =>
      var s1 := s.(probes := s.probes - {p});
      if s.pending.Some? then Taken(s1, true) else s1
    case TakeFailure => Taken(s, false)
    case RollBack(t, ok) =>
      s.(branch := if ok then Some(ProfileFor(s.finishing[t].previous)) else None,
         finishing := s.finishing[t := s.finishing[t].(ready := Some(ok))])
    case Fire(t) =>
      var f := s.finishing[t];
      s.(paused := if f.ready.value then false else s.paused, finishing := s.finishing - {t},
         fired := s.fired + [Firing(t, f.ok, f.quality, f.previous)])
    case Pause => s.(paused := true)
    case Stop => Stopped(s)
  }

  function Dropped(pending: Option<Pending>): set<nat> { if pending.Some? then {pending.value.ticket} else {} }

  predicate Does(s: State, step: Step, s': State) { Enabled(s, step) && s' == Next(s, step) }

  // ------------------------------------------------------------ each step, spelled out

  lemma RequestIs(s: State, quality: string)
    requires s.open && s.active && s.pending.None? && IsOffered(quality) && quality != s.quality
    ensures Does(s, Request(quality),
                 Sized(s.(pending := Some(Pending(s.accepted, s.quality, quality)), answered := false, paused := true,
                          requesters := s.requesters[s.accepted := quality], accepted := s.accepted + 1), quality))
  {
    hide ProfileFor, AppsrcFor;
  }

  lemma RequestSameIs(s: State)
    requires s.open && s.active && s.pending.None? && IsOffered(s.quality)
    ensures Does(s, RequestSame,
                 s.(finishing := s.finishing[s.accepted := Finishing(true, s.quality, s.quality, Some(false))],
                    accepted := s.accepted + 1))
  {
    hide ProfileFor, AppsrcFor;
  }

  lemma ReconfigureIs(s: State, ticket: nat, ok: bool)
    requires ticket in s.requesters && (ok ==> s.open)
    ensures Does(s, Reconfigure(ticket, ok),
                 s.(branch := if ok then Some(ProfileFor(s.requesters[ticket])) else None,
                    requesters := s.requesters - {ticket}))
  {
    hide ProfileFor, AppsrcFor;
  }

  lemma TakeSuccessIs(s: State, probe: nat)
    requires probe in s.probes && s.pending.Some?
    ensures Does(s, TakeSuccess(probe),
                 s.(probes := s.probes - {probe}, pending := None, answered := false, settled := s.pending.value.quality,
                    finishing := s.finishing[s.pending.value.ticket := Finishing(true, s.pending.value.previous,
                                                                                 s.pending.value.quality, Some(true))]))
  {
    hide ProfileFor, AppsrcFor;
  }

  lemma TakeFailureIs(s: State)
    requires s.pending.Some?
    ensures Does(s, TakeFailure,
                 Sized(s.(pending := None, answered := false,
                          finishing := s.finishing[s.pending.value.ticket := Finishing(false, s.pending.value.previous,
                                                                                       s.pending.value.quality, None)]),
                       s.pending.value.previous))
  {
    hide ProfileFor, AppsrcFor;
  }

  lemma RollBackIs(s: State, ticket: nat, ok: bool)
    requires ticket in s.finishing && s.finishing[ticket].ready.None? && (ok ==> s.open)
    ensures Does(s, RollBack(ticket, ok),
                 s.(branch := if ok then Some(ProfileFor(s.finishing[ticket].previous)) else None,
                    finishing := s.finishing[ticket := s.finishing[ticket].(ready := Some(ok))]))
  {
    hide ProfileFor, AppsrcFor;
  }

  lemma FireIs(s: State, ticket: nat)
    requires ticket in s.finishing && s.finishing[ticket].ready.Some?
    ensures Does(s, Fire(ticket),
                 s.(paused := if s.finishing[ticket].ready.value then false else s.paused,
                    finishing := s.finishing - {ticket},
                    fired := s.fired + [Firing(ticket, s.finishing[ticket].ok, s.finishing[ticket].quality,
                                               s.finishing[ticket].previous)]))
  {
    hide ProfileFor, AppsrcFor;
  }

  lemma StartIs(s: State, quality: string, pixels: Pixels)
    requires !s.open
    ensures Does(s, Start(quality, pixels),
                 Sized(s.(open := true, active := false, appsrc := s.appsrc.(pixels := pixels), pending := None,
                          answered := false, paused := false, branch := Some(ProfileFor(quality)), settled := quality),
                       quality))
  {
    hide ProfileFor, AppsrcFor;
  }

  lemma StopIs(s: State)
    ensures Does(s, Stop, Stopped(s))
  {
    hide ProfileFor, AppsrcFor;
  }

  // --------------------------------------------------------------------------------- invariants

  ghost predicate HasFired(s: State, t: nat) { exists i | 0 <= i < |s.fired| :: s.fired[i].ticket == t }

  predicate IsPending(s: State, t: nat) { s.pending.Some? && s.pending.value.ticket == t }

  ghost predicate IsPlaced(s: State, t: nat) { IsPending(s, t) || t in s.finishing || HasFired(s, t) || t in s.discarded }

  /** Every accepted switch is in exactly one place: pending, being finished, answered through its callback
      (once), or discarded by stop. */
  ghost predicate Placed(s: State) {
    && (forall t: nat :: IsPlaced(s, t) <==> t < s.accepted)
    && (forall t: nat | IsPending(s, t) :: t !in s.finishing && !HasFired(s, t) && t !in s.discarded)
    && (forall t: nat | t in s.finishing :: !HasFired(s, t) && t !in s.discarded)
    && (forall t: nat | HasFired(s, t) :: t !in s.discarded)
    && (forall i, j | 0 <= i < j < |s.fired| :: s.fired[i].ticket != s.fired[j].ticket)
  }

  /** While a session exists the appsrc has the size of the quality in force; without one nothing is pending. */
  predicate SizeOk(s: State) {
    if s.open then s.appsrc == AppsrcFor(s.quality, s.appsrc.pixels)
    else s.appsrc == NO_APPSRC && s.pending.None? && !s.active
  }

  /** Without a pending switch the quality in force is that of the start or of the last switch that
      succeeded; a pending switch remembers it. */
  predicate SettledOk(s: State) {
    && (s.open && s.pending.None? ==> s.quality == s.settled)
    && (s.pending.Some? ==> s.pending.value.previous == s.settled && s.pending.value.quality == s.quality != s.settled)
    && (s.answered ==> s.pending.Some?)
  }

  /** A thread about to reconfigure the encoder for a pending switch does so for the quality of that switch. */
  predicate RequestersOk(s: State) {
    forall t | t in s.requesters :: t < s.accepted && (IsPending(s, t) ==> s.requesters[t] == s.pending.value.quality)
  }

  ghost predicate Inv(s: State) { Placed(s) && SizeOk(s) && SettledOk(s) && RequestersOk(s) }

  lemma RequestersOkKept(s: State, step: Step)
    requires RequestersOk(s) && Enabled(s, step)
    ensures RequestersOk(Next(s, step))
  {
    hide ProfileFor, AppsrcFor;
    match step {
      case Start(_, _) =>
      case Request(_) =>
      case Reconfigure(_, _) =>
      case TakeSuccess(_) =>
      case TakeFailure =>
      case Stop =>
      case _ =>
    }
  }

  lemma SizeOkKept(s: State, step: Step)
    requires SizeOk(s) && SettledOk(s) && Enabled(s, step)
    ensures SizeOk(Next(s, step))
  {
  }

  lemma SettledOkKept(s: State, step: Step)
    requires SizeOk(s) && SettledOk(s) && Enabled(s, step)
    ensures SettledOk(Next(s, step))
  {
  }

  /** Where a ticket is after a step. */
  lemma PlaceAfter(s: State, step: Step, t: nat)
    requires Enabled(s, step)
    ensures HasFired(Next(s, step), t) <==> HasFired(s, t) || step == Fire(t)
  {
    var s' := Next(s, step);
    forall i | 0 <= i < |s.fired| ensures s'.fired[i] == s.fired[i] {
    }
    if step == Fire(t) {
      assert s'.fired[|s.fired|].ticket == t;
    }
    if HasFired(s, t) {
      var i :| 0 <= i < |s.fired| && s.fired[i].ticket == t;
      assert s'.fired[i].ticket == t;
    }
  }

  lemma PlacedAfter(s: State, step: Step, t: nat)
    requires Placed(s) && SizeOk(s) && Enabled(s, step)
    ensures IsPlaced(Next(s, step), t) <==> t < Next(s, step).accepted
    ensures var s' := Next(s, step);
      && (IsPending(s', t) ==> t !in s'.finishing && !HasFired(s', t) && t !in s'.discarded)
      && (t in s'.finishing ==> !HasFired(s', t) && t !in s'.discarded)
      && (HasFired(s', t) ==> t !in s'.discarded)
  {
    hide HasFired, ProfileFor, AppsrcFor;
    PlaceAfter(s, step, t);
    assert IsPlaced(s, t) <==> t < s.accepted;
    assert s.pending.Some? ==> IsPlaced(s, s.pending.value.ticket);
    assert !IsPlaced(s, s.accepted);
    match step {
      case Start(_, _) =>
      case Request(_) =>
      case RequestSame =>
      case Reconfigure(_, _) =>
      case TakeSuccess(_) =>
      case TakeFailure =>
      case RollBack(_, _) =>
      case Fire(_) =>
      case _ =>
    }
  }

  lemma PlacedKept(s: State, step: Step)
    requires Placed(s) && SizeOk(s) && Enabled(s, step)
    ensures Placed(Next(s, step))
  {
    hide HasFired, Next, Enabled;
    var s' := Next(s, step);
    forall t: nat ensures IsPlaced(s', t) <==> t < s'.accepted
      ensures IsPending(s', t) ==> t !in s'.finishing && !HasFired(s', t) && t !in s'.discarded
      ensures t in s'.finishing ==> !HasFired(s', t) && t !in s'.discarded
      ensures HasFired(s', t) ==> t !in s'.discarded
    {
      PlacedAfter(s, step, t);
    }
    FiredDistinct(s, step);
  }

  lemma FiredDistinct(s: State, step: Step)
    requires Placed(s) && SizeOk(s) && Enabled(s, step)
    ensures forall i, j | 0 <= i < j < |Next(s, step).fired| ::
      Next(s, step).fired[i].ticket != Next(s, step).fired[j].ticket
  {
    var s' := Next(s, step);
    forall i, j | 0 <= i < j < |s'.fired| ensures s'.fired[i].ticket != s'.fired[j].ticket {
      if j == |s.fired| {
        assert HasFired(s, s.fired[i].ticket);
      }
    }
  }

  lemma NextKeepsInv(s: State, step: Step)
    requires Inv(s) && Enabled(s, step)
    ensures Inv(Next(s, step))
  {
    hide Placed, SizeOk, SettledOk, RequestersOk, Next, Enabled;
    PlacedKept(s, step);
    RequestersOkKept(s, step);
    SizeOkKept(s, step);
    SettledOkKept(s, step);
  }

  // --------------------------------------------------------------------------------- whole runs

  function Reached(s: State, steps: seq<Step>): State {
    if steps == [] then s
    else
      var before := Reached(s, steps[..|steps| - 1]);
      if Enabled(before, steps[|steps| - 1]) then Next(before, steps[|steps| - 1]) else before
  }

  /** Every step of the run may happen where it happens. */
  predicate IsRun(s: State, steps: seq<Step>) {
    steps == [] || (IsRun(s, steps[..|steps| - 1])
                    && Enabled(Reached(s, steps[..|steps| - 1]), steps[|steps| - 1]))
  }

  ghost predicate Reaches(s: State, s': State) { exists steps :: IsRun(s, steps) && Reached(s, steps) == s' }

  lemma ReachesSame(s: State)
    ensures Reaches(s, s)
  {
    assert IsRun(s, []) && Reached(s, []) == s;
  }

  lemma ReachesNext(s: State, m: State, step: Step, s': State)
    requires Reaches(s, m) && Does(m, step, s')
    ensures Reaches(s, s')
  {
    var steps :| IsRun(s, steps) && Reached(s, steps) == m;
    var more := steps + [step];
    assert more[..|more| - 1] == steps;
    hide Enabled, Next;
    assert IsRun(s, more) && Reached(s, more) == s';
  }

  lemma {:induction false} ReachesBy(s: State, m: State, steps: seq<Step>)
    requires Reaches(s, m) && IsRun(m, steps)
    ensures Reaches(s, Reached(m, steps))
  {
    hide Enabled, Next;
    if steps != [] {
      var shorter := steps[..|steps| - 1];
      ReachesBy(s, m, shorter);
      ReachesNext(s, Reached(m, shorter), steps[|steps| - 1], Reached(m, steps));
    }
  }

  lemma ReachesOn(s: State, m: State, s': State)
    requires Reaches(s, m) && Reaches(m, s')
    ensures Reaches(s, s')
  {
    var steps :| IsRun(m, steps) && Reached(m, steps) == s';
    ReachesBy(s, m, steps);
  }

  lemma ClosedInv()
    ensures Inv(CLOSED)
  {
  }

  lemma {:induction false} EveryRunKeepsInv(s: State, steps: seq<Step>)
    requires Inv(s) && IsRun(s, steps)
    ensures Inv(Reached(s, steps))
  {
    hide Inv, Next, Enabled;
    if steps != [] {
      EveryRunKeepsInv(s, steps[..|steps| - 1]);
      NextKeepsInv(Reached(s, steps[..|steps| - 1]), steps[|steps| - 1]);
    }
  }

  lemma ReachesKeepsInv(s: State, s': State)
    requires Inv(s) && Reaches(s, s')
    ensures Inv(s')
  {
    hide Inv;
    var steps :| IsRun(s, steps) && Reached(s, steps) == s';
    EveryRunKeepsInv(s, steps);
  }

  /** Once nothing is pending and nobody is finishing, the callback of every accepted switch has been called
      exactly once, unless stop discarded the switch. */
  lemma EverySwitchAnsweredOnce(steps: seq<Step>, t: nat)
    requires IsRun(CLOSED, steps)
    ensures var s := Reached(CLOSED, steps);
      s.pending.None? && s.finishing == map[] && t < s.accepted ==>
        && (HasFired(s, t) <==> t !in s.discarded)
        && (forall i, j | 0 <= i < j < |s.fired| && s.fired[i].ticket == t :: s.fired[j].ticket != t)
  {
    ClosedInv();
    EveryRunKeepsInv(CLOSED, steps);
    hide HasFired;
    var s := Reached(CLOSED, steps);
    assert IsPlaced(s, t) <==> t < s.accepted;
  }

  lemma OnlyStopDiscards(s: State, step: Step)
    requires Enabled(s, step) && step != Stop
    ensures Next(s, step).discarded == s.discarded
  {
    hide ProfileFor, AppsrcFor;
    match step {
      case Start(_, _) =>
      case Request(_) =>
      case RequestSame =>
      case Reconfigure(_, _) =>
      case TakeSuccess(_) =>
      case TakeFailure =>
      case RollBack(_, _) =>
      case Fire(_) =>
      case _ =>
    }
  }

  lemma {:induction false} NothingDiscardedWithoutStop(steps: seq<Step>)
    requires IsRun(CLOSED, steps) && Stop !in steps
    ensures Reached(CLOSED, steps).discarded == {}
  {
    hide Next, Enabled;
    if steps != [] {
      NothingDiscardedWithoutStop(steps[..|steps| - 1]);
      OnlyStopDiscards(Reached(CLOSED, steps[..|steps| - 1]), steps[|steps| - 1]);
    }
  }

  /** Wherever switch t is, it carries these two qualities. */
  ghost predicate Carries(s: State, t: nat, previous: string, quality: string) {
    IsHeldAs(s, t, previous, quality) && FiredAs(s.fired, t, previous, quality)
  }

  predicate IsHeldAs(s: State, t: nat, previous: string, quality: string) {
    && t < s.accepted
    && (IsPending(s, t) ==> s.pending.value == Pending(t, previous, quality))
    && (t in s.finishing ==> s.finishing[t].previous == previous && s.finishing[t].quality == quality)
  }

  ghost predicate FiredAs(fired: seq<Firing>, t: nat, previous: string, quality: string) {
    forall i | 0 <= i < |fired| && fired[i].ticket == t :: fired[i].previous == previous && fired[i].quality == quality
  }

  lemma HeldAsKept(s: State, step: Step, t: nat, previous: string, quality: string)
    requires IsHeldAs(s, t, previous, quality) && Enabled(s, step)
    ensures IsHeldAs(Next(s, step), t, previous, quality)
  {
    hide ProfileFor, AppsrcFor;
    match step {
      case Start(_, _) =>
      case Request(_) =>
      case RequestSame =>
      case TakeSuccess(_) =>
      case TakeFailure =>
      case RollBack(_, _) =>
      case Fire(_) =>
      case Stop =>
      case _ =>
    }
  }

  lemma CarriesKept(s: State, step: Step, t: nat, previous: string, quality: string)
    requires Carries(s, t, previous, quality) && Enabled(s, step)
    ensures Carries(Next(s, step), t, previous, quality)
  {
    HeldAsKept(s, step, t, previous, quality);
    hide ProfileFor, AppsrcFor, IsHeldAs, FiredAs;
    match step {
      case Start(_, _) =>
      case Request(_) =>
      case TakeSuccess(_) =>
      case TakeFailure =>
      case Fire(x) =>
        var f := s.finishing[x];
        assert x == t ==> f.previous == previous && f.quality == quality by {
          assert IsHeldAs(s, t, previous, quality);
        }
        FiredMore(s.fired, Firing(x, f.ok, f.quality, f.previous), t, previous, quality);
      case _ =>
    }
  }

  lemma FiredMore(fired: seq<Firing>, f: Firing, t: nat, previous: string, quality: string)
    requires FiredAs(fired, t, previous, quality) && (f.ticket == t ==> f.previous == previous && f.quality == quality)
    ensures FiredAs(fired + [f], t, previous, quality)
  {
  }

  lemma {:induction false} CarriesAlong(s: State, steps: seq<Step>, t: nat, previous: string, quality: string)
    requires Carries(s, t, previous, quality) && IsRun(s, steps)
    ensures Carries(Reached(s, steps), t, previous, quality)
  {
    hide Carries, Next, Enabled;
    if steps != [] {
      CarriesAlong(s, steps[..|steps| - 1], t, previous, quality);
      CarriesKept(Reached(s, steps[..|steps| - 1]), steps[|steps| - 1], t, previous, quality);
    }
  }

  lemma RequestCarries(s: State, quality: string)
    requires Inv(s) && Enabled(s, Request(quality))
    ensures Carries(Next(s, Request(quality)), s.accepted, s.quality, quality)
  {
    hide ProfileFor, AppsrcFor;
    assert !IsPlaced(s, s.accepted);
    forall i | 0 <= i < |s.fired| ensures s.fired[i].ticket < s.accepted {
      assert HasFired(s, s.fired[i].ticket) && IsPlaced(s, s.fired[i].ticket);
    }
  }

  /** A switch that fails, however late and whatever happened in between, puts back the quality and the size
      that were in force when it was requested. */
  lemma FailedSwitchRestores(s: State, quality: string, steps: seq<Step>)
    requires Inv(s) && Enabled(s, Request(quality))
    requires var s1 := Next(s, Request(quality)); IsRun(s1, steps) && IsPending(Reached(s1, steps), s.accepted)
    ensures var s2 := Reached(Next(s, Request(quality)), steps);
      && Enabled(s2, TakeFailure)
      && var s3 := Next(s2, TakeFailure);
         && s3.quality == s.quality && s3.pending.None? && s3.settled == s2.settled
         && s3.appsrc == AppsrcFor(s.quality, s2.appsrc.pixels)
  {
    RequestCarries(s, quality);
    CarriesAlong(Next(s, Request(quality)), steps, s.accepted, s.quality, quality);
  }

  /** The callback of a switch names the quality it asked for and the one it replaced. */
  lemma CallbackNamesTheSwitch(s: State, quality: string, steps: seq<Step>, i: nat)
    requires Inv(s) && Enabled(s, Request(quality)) && IsRun(Next(s, Request(quality)), steps)
    requires var s2 := Reached(Next(s, Request(quality)), steps); i < |s2.fired| && s2.fired[i].ticket == s.accepted
    ensures var s2 := Reached(Next(s, Request(quality)), steps);
      s2.fired[i].quality == quality && s2.fired[i].previous == s.quality
  {
    RequestCarries(s, quality);
    CarriesAlong(Next(s, Request(quality)), steps, s.accepted, s.quality, quality);
  }

  // ---------------------------------------------------------------------------------- the probes

  /** The steps that take the pending switch out, whichever it is. */
  predicate TakesOut(step: Step) { step.TakeSuccess? || step == TakeFailure || step == Stop }

  /** A switch stays pending exactly until the first step that takes a switch out. */
  lemma {:induction false} PendingUntilTaken(s: State, steps: seq<Step>, t: nat)
    requires Inv(s) && IsPending(s, t) && IsRun(s, steps)
    ensures IsPending(Reached(s, steps), t) <==> forall i | 0 <= i < |steps| :: !TakesOut(steps[i])
    ensures t < Reached(s, steps).accepted
  {
    hide Next, Enabled, Placed, TakesOut, IsPending, SettledOk, RequestersOk;
    if steps != [] {
      var shorter := steps[..|steps| - 1];
      PendingUntilTaken(s, shorter, t);
      EveryRunKeepsInv(s, shorter);
      PendingAfter(Reached(s, shorter), steps[|steps| - 1], t);
      assert forall i | 0 <= i < |shorter| :: steps[i] == shorter[i];
    } else {
      TicketInRange(s, t);
    }
  }

  lemma TicketInRange(s: State, t: nat)
    requires Inv(s) && IsPending(s, t)
    ensures t < s.accepted
  {
    hide HasFired;
    assert IsPlaced(s, t);
  }

  lemma PendingAfter(s: State, step: Step, t: nat)
    requires SizeOk(s) && Enabled(s, step) && t < s.accepted
    ensures IsPending(Next(s, step), t) <==> IsPending(s, t) && !TakesOut(step)
    ensures t < Next(s, step).accepted
  {
    hide ProfileFor, AppsrcFor;
    match step {
      case Start(_, _) =>
      case Request(_) =>
      case RequestSame =>
      case TakeSuccess(_) =>
      case TakeFailure =>
      case Stop =>
      case _ =>
    }
  }

  lemma {:induction false} ProbeRemembers(s: State, steps: seq<Step>, probe: nat)
    requires probe in s.probes && IsRun(s, steps) && TakeSuccess(probe) !in steps
    ensures probe in Reached(s, steps).probes && Reached(s, steps).probes[probe] == s.probes[probe]
  {
    hide Next, Enabled;
    if steps != [] {
      ProbeRemembers(s, steps[..|steps| - 1], probe);
      ProbeKept(Reached(s, steps[..|steps| - 1]), steps[|steps| - 1], probe);
    }
  }

  lemma ProbeKept(s: State, step: Step, probe: nat)
    requires Enabled(s, step) && probe in s.probes && step != TakeSuccess(probe)
    ensures probe in Next(s, step).probes && Next(s, step).probes[probe] == s.probes[probe]
  {
    hide ProfileFor, AppsrcFor;
    match step {
      case Start(_, _) =>
      case Request(_) =>
      case ProbeSees(_) =>
      case TakeSuccess(_) =>
      case TakeFailure =>
      case _ =>
    }
  }

  /** Switch t has just been confirmed: its callback will be called with success. */
  predicate Confirmed(before: State, after: State, t: nat) {
    t !in before.finishing && t in after.finishing && after.finishing[t].ok
  }

  /** When a success belongs to the switch the probe saw. Over every run from the probe's look to its call of
      finish_quality_switch, it confirms the switch it saw iff that one is still pending, and that is so iff
      no switch was taken out and no stop came in between. Otherwise it confirms whatever is pending. */
  lemma ProbeConfirmsItsSwitchIff(s: State, probe: nat, steps: seq<Step>)
    requires Inv(s) && Enabled(s, ProbeSees(probe))
    requires IsRun(Next(s, ProbeSees(probe)), steps) && TakeSuccess(probe) !in steps
    ensures var t := s.pending.value.ticket;
      var before := Reached(Next(s, ProbeSees(probe)), steps);
      && Enabled(before, TakeSuccess(probe)) && before.probes[probe] == t
      && var after := Next(before, TakeSuccess(probe));
         && (Confirmed(before, after, t) <==> forall i | 0 <= i < |steps| :: !TakesOut(steps[i]))
         && (forall u: nat :: Confirmed(before, after, u) <==> IsPending(before, u))
  {
    Looking(s, probe);
    hide Next, Enabled, Inv, IsPending, Confirmed, TakesOut, IsRun, Reached;
    var seen := Next(s, ProbeSees(probe));
    EveryRunKeepsInv(seen, steps);
    PendingUntilTaken(seen, steps, s.pending.value.ticket);
    ProbeRemembers(seen, steps, probe);
    TakingConfirms(Reached(seen, steps), probe);
  }

  lemma Looking(s: State, probe: nat)
    requires Inv(s) && Enabled(s, ProbeSees(probe))
    ensures var seen := Next(s, ProbeSees(probe));
      && Inv(seen) && IsPending(seen, s.pending.value.ticket)
      && probe in seen.probes && seen.probes[probe] == s.pending.value.ticket
  {
    NextKeepsInv(s, ProbeSees(probe));
    hide Inv;
  }

  lemma TakingConfirms(s: State, probe: nat)
    requires Inv(s) && probe in s.probes
    ensures Enabled(s, TakeSuccess(probe))
    ensures forall u: nat :: Confirmed(s, Next(s, TakeSuccess(probe)), u) <==> IsPending(s, u)
  {
    hide HasFired, ProfileFor, AppsrcFor;
  }

  // ----------------------------------------------------------------------------------- the pause

  predicate Pauses(step: Step) { step.Request? || step == Pause }

  /** Steps that let the video run: an answer, a callback that finds it ready, a new session, its end. */
  predicate Resumes(s: State, step: Step) {
    || step == Resume || step == Stop || step.Start?
    || (step.Fire? && step.ticket in s.finishing && s.finishing[step.ticket].ready == Some(true))
  }

  /** After the last pausing step of the run no step has let the video run. */
  ghost predicate LastPauseStands(s: State, steps: seq<Step>) {
    exists i | 0 <= i < |steps| :: Pauses(steps[i]) && StandsFrom(s, steps, i)
  }

  ghost predicate StandsFrom(s: State, steps: seq<Step>, i: int) {
    forall j | 0 <= i < j < |steps| :: !Resumes(Reached(s, steps[..j]), steps[j])
  }

  ghost predicate NeverResumes(s: State, steps: seq<Step>) {
    forall j | 0 <= j < |steps| :: !Resumes(Reached(s, steps[..j]), steps[j])
  }

  lemma PausedAfter(s: State, step: Step)
    requires Enabled(s, step)
    ensures Next(s, step).paused <==> Pauses(step) || (s.paused && !Resumes(s, step))
  {
    hide ProfileFor, AppsrcFor;
    match step {
      case Start(_, _) =>
      case Request(_) =>
      case RequestSame =>
      case TakeSuccess(_) =>
      case TakeFailure =>
      case Fire(_) =>
      case Stop =>
      case _ =>
    }
  }

  lemma NeverResumesMore(s: State, steps: seq<Step>)
    requires steps != []
    ensures var shorter, last := steps[..|steps| - 1], steps[|steps| - 1];
      NeverResumes(s, steps) <==> NeverResumes(s, shorter) && !Resumes(Reached(s, shorter), last)
  {
    hide Reached, Resumes;
    var shorter, n := steps[..|steps| - 1], |steps| - 1;
    assert forall j | 0 <= j <= n :: steps[..j] == shorter[..j];
    assert shorter[..n] == shorter;
  }

  lemma LastPauseMore(s: State, steps: seq<Step>)
    requires steps != []
    ensures var shorter, last := steps[..|steps| - 1], steps[|steps| - 1];
      LastPauseStands(s, steps) <==>
        Pauses(last) || (LastPauseStands(s, shorter) && !Resumes(Reached(s, shorter), last))
  {
    hide Reached, Resumes, Pauses, StandsFrom;
    var shorter, n := steps[..|steps| - 1], |steps| - 1;
    assert StandsFrom(s, steps, n) by {
      NothingAfter(s, steps);
    }
    forall i | 0 <= i < n
      ensures StandsFrom(s, steps, i) <==> StandsFrom(s, shorter, i) && !Resumes(Reached(s, shorter), steps[n])
    {
      StandsMore(s, steps, i);
    }
    assert forall i | 0 <= i < n :: shorter[i] == steps[i];
    if Pauses(steps[n]) {
      assert Pauses(steps[n]) && StandsFrom(s, steps, n);
    }
  }

  lemma NothingAfter(s: State, steps: seq<Step>)
    requires steps != []
    ensures StandsFrom(s, steps, |steps| - 1)
  {
  }

  lemma StandsMore(s: State, steps: seq<Step>, i: nat)
    requires i < |steps| - 1
    ensures var shorter, last := steps[..|steps| - 1], steps[|steps| - 1];
      StandsFrom(s, steps, i) <==> StandsFrom(s, shorter, i) && !Resumes(Reached(s, shorter), last)
  {
    hide Reached, Resumes;
    var shorter, n := steps[..|steps| - 1], |steps| - 1;
    assert forall j | 0 <= j <= n :: steps[..j] == shorter[..j];
    assert shorter[..n] == shorter;
  }

  /** The pause flag over any run. */
  lemma {:induction false} PausedIff(s: State, steps: seq<Step>)
    requires IsRun(s, steps)
    ensures Reached(s, steps).paused <==> LastPauseStands(s, steps) || (s.paused && NeverResumes(s, steps))
  {
    hide Next, Enabled, Resumes, Pauses, LastPauseStands, NeverResumes;
    if steps != [] {
      PausedIff(s, steps[..|steps| - 1]);
      PausedAfter(Reached(s, steps[..|steps| - 1]), steps[|steps| - 1]);
      LastPauseMore(s, steps);
      NeverResumesMore(s, steps);
    } else {
      NoSteps(s);
    }
  }

  lemma NoSteps(s: State)
    ensures !LastPauseStands(s, []) && NeverResumes(s, [])
  {
  }

  /** Whether a failed rollback leaves the video paused, as the log says: over every run from the request of
      the switch to its callback, it does iff nothing has let the video run after the last pausing step. */
  lemma FailedRollbackPausedIff(s: State, quality: string, steps: seq<Step>)
    requires IsRun(s, [Request(quality)] + steps)
    requires var end := Reached(s, [Request(quality)] + steps);
      s.accepted in end.finishing && end.finishing[s.accepted].ready == Some(false)
    ensures var run := [Request(quality)] + steps;
      && Enabled(Reached(s, run), Fire(s.accepted))
      && (Next(Reached(s, run), Fire(s.accepted)).paused <==> LastPauseStands(s, run))
  {
    hide ProfileFor, AppsrcFor;
    var run := [Request(quality)] + steps;
    PausedIff(s, run);
    PausedAfter(Reached(s, run), Fire(s.accepted));
    if NeverResumes(s, run) {
      assert Pauses(run[0]) && StandsFrom(s, run, 0);
    }
  }

  // ------------------------------------------------------------------------- the encoder branch

  predicate NoRollbackDue(finishing: map<nat, Finishing>) { forall t | t in finishing :: finishing[t].ready.Some? }

  /** The steps that set up the encoder. */
  predicate Configures(step: Step) { step.Start? || step.Reconfigure? || step.RollBack? }

  /** A configuring step works, and the quality it sets up is, by its profile, the one in force at that time. */
  predicate Fits(s: State, step: Step)
    requires Enabled(s, step)
  {
    match step
    case Start(_, _) => true
    case Reconfigure(t, ok) => ok && ProfileFor(s.requesters[t]) == ProfileFor(s.quality)
    case RollBack(t, ok) => ok && ProfileFor(s.finishing[t].previous) == ProfileFor(s.quality)
    case _ => false
  }

  // What the list of steps says by itself, without the states between them.

  /** How many switches have been accepted. */
  function Accepted(steps: seq<Step>): nat {
    if steps == [] then 0
    else
      var last := steps[|steps| - 1];
      Accepted(steps[..|steps| - 1]) + if last.Request? || last == RequestSame then 1 else 0
  }

  /** The quality last started or asked for whose switch has not failed. */
  function QualityAfter(steps: seq<Step>): string {
    if steps == [] then ""
    else
      var shorter, last := steps[..|steps| - 1], steps[|steps| - 1];
      if last.Start? || last.Request? then last.quality
      else if last == TakeFailure && Accepted(shorter) > 0 then Replaced(shorter, Accepted(shorter) - 1)
      else QualityAfter(shorter)
  }

  /** The quality switch t asked for, and the one it was to replace. */
  function Asked(steps: seq<Step>, t: nat): string {
    if steps == [] then ""
    else
      var shorter, last := steps[..|steps| - 1], steps[|steps| - 1];
      if last.Request? && Accepted(shorter) == t then last.quality else Asked(shorter, t)
  }

  function Replaced(steps: seq<Step>, t: nat): string {
    if steps == [] then ""
    else
      var shorter, last := steps[..|steps| - 1], steps[|steps| - 1];
      if last.Request? && Accepted(shorter) == t then QualityAfter(shorter) else Replaced(shorter, t)
  }

  /** A configuring step works and is not late: by its profile, the quality it sets up is still the one last
      started or asked for whose switch has not failed. */
  predicate IsOnTime(steps: seq<Step>, step: Step) {
    match step
    case Start(_, _) => true
    case Reconfigure(t, ok) => ok && ProfileFor(Asked(steps, t)) == ProfileFor(QualityAfter(steps))
    case RollBack(t, ok) => ok && ProfileFor(Replaced(steps, t)) == ProfileFor(QualityAfter(steps))
    case _ => false
  }

  /** The last configuring step of the run was on time. */
  predicate LastSetUpOnTime(steps: seq<Step>) {
    if steps == [] then false
    else
      var shorter, last := steps[..|steps| - 1], steps[|steps| - 1];
      if Configures(last) then IsOnTime(shorter, last) else LastSetUpOnTime(shorter)
  }

  /** The list tells what the state holds: the quality in force and the pending switch, */
  predicate TellsQuality(s: State, steps: seq<Step>) {
    && s.accepted == Accepted(steps) && s.quality == QualityAfter(steps)
    && (s.pending.Some? ==>
          s.pending.value.ticket == s.accepted - 1
          && s.pending.value.previous == Replaced(steps, s.pending.value.ticket))
  }

  /** and what those at work on the encoder will set up. */
  ghost predicate TellsWork(s: State, steps: seq<Step>) { forall t: nat :: TellsWorkOf(s, steps, t) }

  predicate TellsWorkOf(s: State, steps: seq<Step>, t: nat) {
    && (t in s.requesters ==> t < s.accepted && s.requesters[t] == Asked(steps, t))
    && (t in s.finishing ==>
          t < s.accepted && (s.finishing[t].ready.None? ==> s.finishing[t].previous == Replaced(steps, t)))
  }

  ghost predicate Told(s: State, steps: seq<Step>) { TellsQuality(s, steps) && TellsWork(s, steps) }

  lemma OneMoreStep(steps: seq<Step>, step: Step)
    ensures var more := steps + [step];
      && Accepted(more) == Accepted(steps) + (if step.Request? || step == RequestSame then 1 else 0)
      && QualityAfter(more)
           == (if step.Start? || step.Request? then step.quality
               else if step == TakeFailure && Accepted(steps) > 0 then Replaced(steps, Accepted(steps) - 1)
               else QualityAfter(steps))
      && (forall t: nat ::
            Asked(more, t) == if step.Request? && Accepted(steps) == t then step.quality else Asked(steps, t))
      && (forall t: nat ::
            Replaced(more, t) == if step.Request? && Accepted(steps) == t then QualityAfter(steps) else Replaced(steps, t))
  {
    assert (steps + [step])[..|steps|] == steps;
  }

  lemma TellsQualityKept(s: State, steps: seq<Step>, step: Step)
    requires TellsQuality(s, steps) && Enabled(s, step)
    ensures TellsQuality(Next(s, step), steps + [step])
  {
    OneMoreStep(steps, step);
    hide Accepted, QualityAfter, Asked, Replaced, ProfileFor, AppsrcFor;
    match step {
      case Start(_, _) =>
      case Request(_) =>
      case RequestSame =>
      case Reconfigure(_, _) =>
      case TakeSuccess(_) =>
      case TakeFailure =>
      case RollBack(_, _) =>
      case Fire(_) =>
      case Stop =>
      case _ =>
    }
  }

  lemma TellsWorkOfKept(s: State, steps: seq<Step>, step: Step, t: nat)
    requires TellsQuality(s, steps) && TellsWorkOf(s, steps, t) && Enabled(s, step)
    ensures TellsWorkOf(Next(s, step), steps + [step], t)
  {
    OneMoreStep(steps, step);
    hide Accepted, QualityAfter, Asked, Replaced, ProfileFor, AppsrcFor;
    match step {
      case Start(_, _) =>
      case Request(_) =>
      case RequestSame =>
      case Reconfigure(_, _) =>
      case TakeSuccess(_) =>
      case TakeFailure =>
      case RollBack(_, _) =>
      case Fire(_) =>
      case Stop =>
      case _ =>
    }
  }

  lemma ToldKept(s: State, steps: seq<Step>, step: Step)
    requires Told(s, steps) && Enabled(s, step)
    ensures Told(Next(s, step), steps + [step])
  {
    hide Next, Enabled, TellsQuality, TellsWorkOf;
    TellsQualityKept(s, steps, step);
    forall t: nat ensures TellsWorkOf(Next(s, step), steps + [step], t) {
      TellsWorkOfKept(s, steps, step, t);
    }
  }

  lemma {:induction false} RunTells(steps: seq<Step>)
    requires IsRun(CLOSED, steps)
    ensures Told(Reached(CLOSED, steps), steps)
  {
    if steps != [] {
      hide Told, Next, Enabled;
      var shorter, last := steps[..|steps| - 1], steps[|steps| - 1];
      RunTells(shorter);
      ToldKept(Reached(CLOSED, shorter), shorter, last);
      assert shorter + [last] == steps;
    }
  }

  lemma FitsIffOnTime(s: State, steps: seq<Step>, step: Step)
    requires Told(s, steps) && Enabled(s, step) && Configures(step)
    ensures Fits(s, step) <==> IsOnTime(steps, step)
  {
    assert !step.Start? ==> TellsWorkOf(s, steps, step.ticket);
    hide Accepted, QualityAfter, Asked, Replaced, ProfileFor, AppsrcFor;
  }

  /** Since the last configuring step no request and no failure has changed the quality in force. */
  predicate Undisturbed(steps: seq<Step>) {
    if steps == [] then false
    else
      var last := steps[|steps| - 1];
      Configures(last) || (!last.Request? && last != TakeFailure && Undisturbed(steps[..|steps| - 1]))
  }

  /** The encoder is set up for the quality in force. */
  predicate BranchRight(s: State) { s.branch == Some(ProfileFor(s.quality)) }

  /** Nobody is about to set up the encoder. */
  predicate NoneAtWork(s: State) { s.requesters == map[] && NoRollbackDue(s.finishing) }

  lemma SetUpMakesRight(s: State, step: Step)
    requires Enabled(s, step) && Configures(step)
    ensures BranchRight(Next(s, step)) <==> Fits(s, step)
  {
    hide ProfileFor, AppsrcFor;
  }

  /** A request and a failure leave somebody with the encoder to set up. */
  lemma DisturbingLeavesWork(s: State, step: Step)
    requires Enabled(s, step) && (step.Request? || step == TakeFailure)
    ensures !NoneAtWork(Next(s, step))
  {
    hide ProfileFor, AppsrcFor;
    var s' := Next(s, step);
    if step.Request? {
      assert s.accepted in s'.requesters;
    } else {
      assert s'.finishing[s.pending.value.ticket].ready.None?;
    }
  }

  /** Other steps neither finish such work nor change the encoder or the quality in force. */
  lemma OtherStepsKeepBranch(s: State, step: Step)
    requires Enabled(s, step) && !Configures(step) && !step.Request? && step != TakeFailure
    ensures Next(s, step).open ==> s.open && (BranchRight(Next(s, step)) <==> BranchRight(s))
  {
    hide ProfileFor, AppsrcFor;
    match step {
      case TakeSuccess(_) =>
      case Fire(_) =>
      case Stop =>
      case _ =>
    }
  }

  lemma OtherStepsKeepWork(s: State, step: Step)
    requires Placed(s) && Enabled(s, step) && !Configures(step) && !step.Request? && step != TakeFailure
    ensures NoneAtWork(Next(s, step)) ==> NoneAtWork(s)
  {
    assert !IsPlaced(s, s.accepted);
    if s.pending.Some? {
      PendingNotFinishing(s);
    }
    hide Placed, IsPlaced, ProfileFor, AppsrcFor, NoRollbackDue;
    match step {
      case RequestSame => DueStays(s.finishing, s.accepted, Next(s, step).finishing[s.accepted]);
      case TakeSuccess(_) =>
        if s.pending.Some? {
          var t := s.pending.value.ticket;
          DueStays(s.finishing, t, Next(s, step).finishing[t]);
        }
      case Fire(t) => DueStaysWithout(s.finishing, t);
      case Stop =>
      case _ =>
    }
  }

  lemma DueStays(finishing: map<nat, Finishing>, t: nat, f: Finishing)
    requires t !in finishing
    ensures NoRollbackDue(finishing[t := f]) ==> NoRollbackDue(finishing)
  {
    assert forall x | x in finishing :: finishing[t := f][x] == finishing[x];
  }

  lemma DueStaysWithout(finishing: map<nat, Finishing>, t: nat)
    requires t in finishing && finishing[t].ready.Some?
    ensures NoRollbackDue(finishing - {t}) ==> NoRollbackDue(finishing)
  {
    assert forall x | x in finishing && x != t :: x in finishing - {t} && (finishing - {t})[x] == finishing[x];
  }

  lemma PendingNotFinishing(s: State)
    requires Placed(s) && s.pending.Some?
    ensures s.pending.value.ticket !in s.finishing
  {
    hide HasFired;
    assert IsPending(s, s.pending.value.ticket);
  }

  lemma {:induction false} BranchAlong(steps: seq<Step>)
    requires IsRun(CLOSED, steps)
    ensures var s := Reached(CLOSED, steps);
      s.open ==>
        if Undisturbed(steps) then BranchRight(s) <==> LastSetUpOnTime(steps) else !NoneAtWork(s)
  {
    hide Next, Enabled, BranchRight, NoneAtWork, Fits, Told, IsOnTime, Placed, SizeOk, SettledOk, RequestersOk;
    if steps != [] {
      var shorter, last := steps[..|steps| - 1], steps[|steps| - 1];
      var before := Reached(CLOSED, shorter);
      BranchAlong(shorter);
      ClosedInv();
      EveryRunKeepsInv(CLOSED, shorter);
      if Configures(last) {
        SetUpMakesRight(before, last);
        RunTells(shorter);
        FitsIffOnTime(before, shorter, last);
      } else if last.Request? || last == TakeFailure {
        DisturbingLeavesWork(before, last);
      } else {
        OtherStepsKeepBranch(before, last);
        OtherStepsKeepWork(before, last);
      }
    }
  }

  /** Over every run, failing reconfigurations and rollbacks included: whenever nobody is about to set up the
      encoder, it is set up for the quality in force iff the last step that configured it worked and was not
      late, which the list of steps alone tells. */
  lemma BranchRightIff(steps: seq<Step>)
    requires IsRun(CLOSED, steps) && Reached(CLOSED, steps).open && NoneAtWork(Reached(CLOSED, steps))
    ensures BranchRight(Reached(CLOSED, steps)) <==> LastSetUpOnTime(steps)
  {
    hide BranchRight, NoneAtWork;
    BranchAlong(steps);
  }

  /** A requester is on time while its switch is pending. */
  lemma PendingReconfigureFits(s: State, t: nat)
    requires Inv(s) && t in s.requesters && IsPending(s, t)
    ensures s.open && Enabled(s, Reconfigure(t, true)) && Fits(s, Reconfigure(t, true))
  {
    hide Placed, ProfileFor, AppsrcFor;
  }

  /** A rollback is on time until something new is requested or started. */
  lemma {:induction false} PromptRollBackFits(s: State, steps: seq<Step>)
    requires Inv(s) && Enabled(s, TakeFailure) && IsRun(Next(s, TakeFailure), steps)
    requires forall i | 0 <= i < |steps| :: !steps[i].Request? && !steps[i].Start?
    ensures var t := s.pending.value.ticket;
      var end := Reached(Next(s, TakeFailure), steps);
      && end.pending.None? && end.quality == s.pending.value.previous
      && (Enabled(end, RollBack(t, true)) ==> Fits(end, RollBack(t, true)))
  {
    hide ProfileFor, AppsrcFor, Placed, SizeOk, RequestersOk;
    var t, p := s.pending.value.ticket, s.pending.value;
    if steps != [] {
      var shorter := steps[..|steps| - 1];
      assert forall i | 0 <= i < |shorter| :: shorter[i] == steps[i];
      PromptRollBackFits(s, shorter);
      QualityStays(Reached(Next(s, TakeFailure), shorter), steps[|steps| - 1]);
    }
    FailureCarries(s);
    CarriesAlong(Next(s, TakeFailure), steps, t, p.previous, p.quality);
  }

  lemma QualityStays(s: State, step: Step)
    requires Enabled(s, step) && s.pending.None? && !step.Request? && !step.Start?
    ensures Next(s, step).pending.None? && Next(s, step).quality == s.quality
  {
    hide ProfileFor, AppsrcFor;
  }

  lemma FailureCarries(s: State)
    requires Inv(s) && Enabled(s, TakeFailure)
    ensures Carries(Next(s, TakeFailure), s.pending.value.ticket, s.pending.value.previous, s.pending.value.quality)
  {
    hide ProfileFor, AppsrcFor;
    var t := s.pending.value.ticket;
    assert IsPlaced(s, t) && IsPending(s, t) && !HasFired(s, t);
    forall i | 0 <= i < |s.fired| ensures s.fired[i].ticket != t {
      assert HasFired(s, s.fired[i].ticket);
    }
  }

  /** An answer came after the last request. */
  ghost predicate IsAnswered(steps: seq<Step>) {
    exists i :: 0 <= i < |steps| && steps[i].Answer? && forall j | i < j < |steps| :: !steps[j].Request?
  }

  /** Over every run a pending switch counts as answered iff an answer came since it was requested, and only
      then can a probe see it. */
  lemma {:induction false} AnsweredIff(steps: seq<Step>)
    requires IsRun(CLOSED, steps) && Reached(CLOSED, steps).pending.Some?
    ensures Reached(CLOSED, steps).answered <==> IsAnswered(steps)
    ensures forall probe | Enabled(Reached(CLOSED, steps), ProbeSees(probe)) :: IsAnswered(steps)
  {
    if steps != [] {
      var shorter, step := steps[..|steps| - 1], steps[|steps| - 1];
      AnsweredStep(Reached(CLOSED, shorter), step);
      AnsweredOneMore(shorter, step);
      assert steps == shorter + [step];
      hide Next, IsAnswered;
      if !step.Request? {
        AnsweredIff(shorter);
      }
    }
  }

  lemma AnsweredStep(s: State, step: Step)
    requires Enabled(s, step) && Next(s, step).pending.Some?
    ensures step.Request? || s.pending.Some?
    ensures Next(s, step).answered <==> step.Answer? || (s.answered && !step.Request?)
  {
    hide ProfileFor, AppsrcFor;
  }

  lemma AnsweredOneMore(steps: seq<Step>, step: Step)
    ensures IsAnswered(steps + [step]) <==> step.Answer? || (IsAnswered(steps) && !step.Request?)
  {
    var more := steps + [step];
    if step.Answer? {
      assert more[|steps|].Answer?;
    } else {
      if IsAnswered(more) {
        var i :| 0 <= i < |more| && more[i].Answer? && forall j | i < j < |more| :: !more[j].Request?;
        assert steps[i].Answer? && !more[|steps|].Request? && forall j | i < j < |steps| :: steps[j] == more[j];
      }
      if IsAnswered(steps) && !step.Request? {
        var i :| 0 <= i < |steps| && steps[i].Answer? && forall j | i < j < |steps| :: !steps[j].Request?;
        assert more[i].Answer?;
      }
    }
  }

  // -------------------------------------------------------------------- the sizes, in numbers

  /** The appsrc and the encoder while this quality is in force. */
  ghost predicate IsSetFor(s: State, width: nat, height: nat, frameSize: nat, bitrate: nat) {
    && s.appsrc.width == width && s.appsrc.height == height && s.appsrc.frameSize == frameSize
    && (BranchRight(s) ==> s.branch == Some(Profile(width, height, bitrate)))
  }

  /** Over every run: what the appsrc is fed with while a quality is in force, for 12 bits and for 16 bits a
      pixel, and what the encoder is set up for when it fits. An unknown quality is taken for 720p. */
  lemma SizesInForce(steps: seq<Step>)
    requires IsRun(CLOSED, steps) && Reached(CLOSED, steps).open
    ensures var s := Reached(CLOSED, steps);
      && (s.appsrc.pixels == Planar420 ==>
            match s.quality
            case "360p" => IsSetFor(s, 640, 360, 345600, 450000)
            case "1080p" => IsSetFor(s, 1920, 1080, 3110400, 2000000)
            case "1440p" => IsSetFor(s, 2560, 1440, 5529600, 3500000)
            case _ => IsSetFor(s, 1280, 720, 1382400, 1000000))
      && (s.appsrc.pixels == Packed422 ==>
            match s.quality
            case "360p" => IsSetFor(s, 640, 360, 460800, 450000)
            case "1080p" => IsSetFor(s, 1920, 1080, 4147200, 2000000)
            case "1440p" => IsSetFor(s, 2560, 1440, 7372800, 3500000)
            case _ => IsSetFor(s, 1280, 720, 1843200, 1000000))
      && (s.appsrc.pixels == Unsupported ==> s.appsrc.frameSize == 0)
  {
    ClosedInv();
    EveryRunKeepsInv(CLOSED, steps);
    hide IsRun, Reached, Placed, SettledOk, RequestersOk;
    assert SizeOk(Reached(CLOSED, steps));
  }

  // ---------------------------------------------------------------------- runs that go wrong

  /** A run, and where it leads. */
  lemma Grow(start: State, steps: seq<Step>, s: State, step: Step) returns (more: seq<Step>, s': State)
    requires IsRun(start, steps) && Reached(start, steps) == s && Enabled(s, step)
    ensures more == steps + [step] && s' == Next(s, step)
    ensures IsRun(start, more) && Reached(start, more) == s'
  {
    hide Enabled, Next;
    more, s' := steps + [step], Next(s, step);
    assert more[..|more| - 1] == steps;
  }

  predicate AtRest(s: State) { s.open && s.pending.None? && s.finishing == map[] && s.requesters == map[] }

  lemma SwitchUnderWay() returns (steps: seq<Step>, s: State)
    ensures IsRun(CLOSED, steps) && s == Reached(CLOSED, steps)
    ensures s.open && s.active && s.quality == "1080p" && s.accepted == 1 && s.fired == []
    ensures s.pending == Some(Pending(0, "720p", "1080p")) && s.requesters == map[0 := "1080p"] && s.finishing == map[]
    ensures s.probes == map[] && s.resumers == 0 && !s.answered && s.paused && s.branch == Some(ProfileFor("720p"))
  {
    steps, s := [], CLOSED;
    hide IsRun, Reached, AppsrcFor;
    assert IsRun(CLOSED, steps) && Reached(CLOSED, steps) == s by {
      Empty(CLOSED);
    }
    steps, s := Grow(CLOSED, steps, s, Start("720p", Planar420));
    steps, s := Grow(CLOSED, steps, s, Activate);
    steps, s := Grow(CLOSED, steps, s, Request("1080p"));
  }

  lemma Empty(s: State)
    ensures IsRun(s, []) && Reached(s, []) == s
  {
  }

  /** The switch to 1080p has failed, its rollback has worked, and its requester is still at work. */
  lemma SwitchRolledBack(steps: seq<Step>, s: State) returns (more: seq<Step>, s': State)
    requires IsRun(CLOSED, steps) && s == Reached(CLOSED, steps) && s.open && s.accepted == 1 && s.fired == []
    requires s.pending == Some(Pending(0, "720p", "1080p")) && s.finishing == map[]
    ensures IsRun(CLOSED, more) && s' == Reached(CLOSED, more)
    ensures more == steps + [TakeFailure, RollBack(0, true), Fire(0)]
    ensures s' == Sized(s.(pending := None, answered := false, finishing := map[], paused := false,
                           branch := Some(ProfileFor("720p")), fired := [Firing(0, false, "1080p", "720p")]), "720p")
  {
    more, s' := steps, s;
    hide IsRun, Reached, AppsrcFor, ProfileFor;
    more, s' := Grow(CLOSED, more, s', TakeFailure);
    more, s' := Grow(CLOSED, more, s', RollBack(0, true));
    more, s' := Grow(CLOSED, more, s', Fire(0));
    assert s'.finishing == map[];
  }

  /** A probe saw the answered switch 0; by the time it takes a switch out, switch 0 has failed and switch 1
      waits for its answer. Switch 1 is reported as successful although no answer to it came. */
  lemma WrongSwitchConfirmed() returns (look: seq<Step>, run: seq<Step>)
    ensures IsRun(CLOSED, run) && look + [ProbeSees(0)] <= run
    ensures IsPending(Reached(CLOSED, look), 0) && Reached(CLOSED, look).probes == map[]
    ensures |run| == |look| + 7 && forall i | |look| <= i < |run| :: run[i] != Answer
    ensures run[|run| - 3..] == [Request("360p"), TakeSuccess(0), Fire(1)]
    ensures var s := Reached(CLOSED, run);
      s.fired == [Firing(0, false, "1080p", "720p"), Firing(1, true, "360p", "720p")]
  {
    var s;
    look, s := SwitchUnderWay();
    hide IsRun, Reached, AppsrcFor, ProfileFor;
    look, s := Grow(CLOSED, look, s, Answer);
    run, s := Grow(CLOSED, look, s, ProbeSees(0));
    run, s := SwitchRolledBack(run, s);
    run, s := Grow(CLOSED, run, s, Request("360p"));
    run, s := Grow(CLOSED, run, s, TakeSuccess(0));
    run, s := Grow(CLOSED, run, s, Fire(1));
  }

  /** A requester that sets up the encoder after its switch was rolled back leaves a 1080p encoder behind a
      720p stream that is not paused and that nobody is about to mend. */
  lemma LateReconfigureWins() returns (run: seq<Step>)
    ensures IsRun(CLOSED, run) && AtRest(Reached(CLOSED, run)) && !Reached(CLOSED, run).paused
    ensures Reached(CLOSED, run).quality == "720p" && Reached(CLOSED, run).branch == Some(ProfileFor("1080p"))
    ensures !BranchRight(Reached(CLOSED, run)) && !LastSetUpOnTime(run)
  {
    var s;
    run, s := SwitchUnderWay();
    run, s := SwitchRolledBack(run, s);
    hide IsRun, Reached, AppsrcFor;
    run, s := Grow(CLOSED, run, s, Reconfigure(0, true));
    hide BranchRight;
    assert !BranchRight(s) by {
      assert ProfileFor("720p") != ProfileFor("1080p");
    }
    BranchRightIff(run);
  }

  /** A requester that cannot set up the encoder, and whose switch is rolled back for that, does no harm. */
  lemma FailedReconfigureRecovers() returns (run: seq<Step>)
    ensures IsRun(CLOSED, run) && AtRest(Reached(CLOSED, run)) && !Reached(CLOSED, run).paused
    ensures Reconfigure(0, false) in run
    ensures BranchRight(Reached(CLOSED, run)) && LastSetUpOnTime(run)
  {
    var s;
    run, s := SwitchUnderWay();
    hide IsRun, Reached, AppsrcFor, ProfileFor;
    run, s := Grow(CLOSED, run, s, Reconfigure(0, false));
    run, s := SwitchRolledBack(run, s);
    assert run[|run| - 4] == Reconfigure(0, false);
    BranchRightIff(run);
  }

  /** A requester may be late and right: its switch was confirmed before it had set up the encoder. */
  lemma LateButRight() returns (run: seq<Step>)
    ensures IsRun(CLOSED, run) && BranchRight(Reached(CLOSED, run)) && NoneAtWork(Reached(CLOSED, run))
    ensures |run| >= 2 && run[|run| - 2..] == [TakeSuccess(0), Reconfigure(0, true)]
  {
    var s;
    run, s := SwitchUnderWay();
    hide IsRun, Reached, AppsrcFor, ProfileFor;
    run, s := Grow(CLOSED, run, s, Answer);
    run, s := Grow(CLOSED, run, s, ProbeSees(0));
    run, s := Grow(CLOSED, run, s, TakeSuccess(0));
    run, s := Grow(CLOSED, run, s, Reconfigure(0, true));
  }

  /** After a failed rollback the video may run all the same: an answer taken in before the failure resumes
      it, with no encoder branch behind it. */
  lemma BrokenBranchMayStream() returns (run: seq<Step>)
    ensures IsRun(CLOSED, run) && RollBack(0, false) in run
    ensures var s := Reached(CLOSED, run);
      && AtRest(s) && s.active && !s.paused && s.branch == None
      && s.fired == [Firing(0, false, "1080p", "720p")]
  {
    var s;
    run, s := SwitchUnderWay();
    hide IsRun, Reached, AppsrcFor, ProfileFor;
    run, s := Grow(CLOSED, run, s, Reconfigure(0, true));
    run, s := Grow(CLOSED, run, s, Answer);
    run, s := Grow(CLOSED, run, s, TakeFailure);
    run, s := Grow(CLOSED, run, s, RollBack(0, false));
    run, s := Grow(CLOSED, run, s, Resume);
    run, s := Grow(CLOSED, run, s, Fire(0));
    assert s.finishing == map[] && s.requesters == map[];
    assert run[|run| - 3] == RollBack(0, false);
  }
}
