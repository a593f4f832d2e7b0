/** The control state of class LiveWebRtcSession in src/device/live_webrtc_session.cpp. Each method is what
    one thread does when no other gets in between; its steps are those of QualityProtocol, which also covers
    every interleaving. A callback is known by the number of its switch; branchOk says whether the encoder
    branch can be reconfigured. */
module LiveWebRtcSession {
  import opened Options
  import opened QP = QualityProtocol

  datatype SwitchResult = Accepted | Rejected(errorCode: string)

  class LiveWebRtcSession {
    var webrtc: bool
    var activePublished: bool
    var currentQuality: string
    var appsrc: Appsrc
    var pendingQualitySwitch: Option<Pending>
    var deadline: Option<int>
    var answerApplied: bool
    var videoPaused: bool
    var branch: Option<Profile>
    var switches: nat
    var callbacks: seq<Firing>
    ghost var requesters: map<nat, string>
    ghost var probes: map<nat, nat>
    ghost var resumers: nat
    ghost var finishing: map<nat, Finishing>
    ghost var settled: string
    ghost var discarded: set<nat>

    ghost function View(): State
      reads this
    {
      State(webrtc, activePublished, currentQuality, appsrc, pendingQualitySwitch, answerApplied, videoPaused, branch,
            requesters, probes, resumers, finishing, settled, switches, callbacks, discarded)
    }

    /** The watchdog has a deadline exactly while a switch is pending. */
    ghost predicate Valid()
      reads this
    {
      Inv(View()) && (deadline.Some? <==> pendingQualitySwitch.Some?)
    }

    constructor ()
      ensures Valid() && View() == CLOSED
    {
      webrtc, activePublished, currentQuality, appsrc := false, false, "", NO_APPSRC;
      pendingQualitySwitch, deadline, answerApplied, videoPaused, branch := None, None, false, false, None;
      switches, callbacks, requesters, probes, resumers := 0, [], map[], map[], 0;
      finishing, settled, discarded := map[], "", {};
      new;
      ClosedInv();
    }

    method SetQuality(quality: string)
      modifies this`currentQuality, this`appsrc
      ensures View() == Sized(old(View()), quality) && currentQuality == quality && appsrc.pixels == old(appsrc.pixels)
    {
      var profile := ProfileFor(quality);
      var frameSize := RawFrameSize(appsrc.pixels, profile.width, profile.height);
      currentQuality := quality;
      appsrc := Appsrc(profile.width, profile.height, frameSize, appsrc.pixels);
    }

    /** The section under the lock in finish_quality_switch, for a switch that succeeded. */
    method TakeConfirmed(ghost probe: nat) returns (pending: Pending)
      requires pendingQualitySwitch.Some? && probe in probes
      modifies this
      ensures pending == old(pendingQualitySwitch).value && deadline == None && pendingQualitySwitch == None
      ensures webrtc == old(webrtc) && branch == old(branch) && callbacks == old(callbacks)
      ensures currentQuality == old(currentQuality) && videoPaused == old(videoPaused)
      ensures finishing
        == old(finishing)[pending.ticket := Finishing(true, pending.previous, pending.quality, Some(true))]
      ensures Does(old(View()), TakeSuccess(probe), View())
    {
      hide ProfileFor, AppsrcFor, Does;
      TakeSuccessIs(View(), probe);
      pending := pendingQualitySwitch.value;
      pendingQualitySwitch, deadline, answerApplied := None, None, false;
      finishing := finishing[pending.ticket := Finishing(true, pending.previous, pending.quality, Some(true))];
      settled, probes := pending.quality, probes - {probe};
    }

    /** The same section for a switch that failed. */
    method TakeFailed() returns (pending: Pending)
      requires pendingQualitySwitch.Some?
      modifies this
      ensures pending == old(pendingQualitySwitch).value && deadline == None && pendingQualitySwitch == None
      ensures webrtc == old(webrtc) && branch == old(branch) && callbacks == old(callbacks)
      ensures currentQuality == pending.previous && videoPaused == old(videoPaused)
      ensures finishing == old(finishing)[pending.ticket := Finishing(false, pending.previous, pending.quality, None)]
      ensures Does(old(View()), TakeFailure, View())
    {
      hide ProfileFor, AppsrcFor, Does, Sized;
      TakeFailureIs(View());
      pending := pendingQualitySwitch.value;
      pendingQualitySwitch, deadline, answerApplied := None, None, false;
      finishing := finishing[pending.ticket := Finishing(false, pending.previous, pending.quality, None)];
      SetQuality(pending.previous);
    }

    /** reconfigure_video_branch for the thread that requested switch t. */
    method ReconfigureVideoBranch(t: nat, quality: string, branchOk: bool) returns (ok: bool)
      requires t in requesters && requesters[t] == quality
      modifies this`branch, this`requesters
      ensures ok == (branchOk && webrtc) && Does(old(View()), Reconfigure(t, ok), View())
      ensures branch == if ok then Some(ProfileFor(quality)) else None
    {
      hide ProfileFor, AppsrcFor, Does;
      ReconfigureIs(View(), t, branchOk && webrtc);
      ok := branchOk && webrtc;
      branch := if ok then Some(ProfileFor(quality)) else None;
      requesters := requesters - {t};
    }

    method RollBackBranch(pending: Pending, branchOk: bool) returns (ok: bool)
      requires pending.ticket in finishing
      requires finishing[pending.ticket] == Finishing(false, pending.previous, pending.quality, None)
      modifies this`branch, this`finishing
      ensures ok == (branchOk && webrtc) && Does(old(View()), RollBack(pending.ticket, ok), View())
      ensures branch == if ok then Some(ProfileFor(pending.previous)) else None
      ensures pending.ticket in finishing
      ensures finishing[pending.ticket] == Finishing(false, pending.previous, pending.quality, Some(ok))
    {
      hide ProfileFor, AppsrcFor, Does;
      RollBackIs(View(), pending.ticket, branchOk && webrtc);
      ok := branchOk && webrtc;
      branch := if ok then Some(ProfileFor(pending.previous)) else None;
      finishing := finishing[pending.ticket := Finishing(false, pending.previous, pending.quality, Some(ok))];
    }

    /** The video goes on if it can, and the callback is called. */
    method CallBack(pending: Pending, ok: bool, videoReady: bool)
      requires pending.ticket in finishing
      requires finishing[pending.ticket] == Finishing(ok, pending.previous, pending.quality, Some(videoReady))
      modifies this`videoPaused, this`callbacks, this`finishing
      ensures Does(old(View()), Fire(pending.ticket), View())
      ensures callbacks == old(callbacks) + [Firing(pending.ticket, ok, pending.quality, pending.previous)]
      ensures videoPaused == if videoReady then false else old(videoPaused)
    {
      hide ProfileFor, AppsrcFor, Does;
      FireIs(View(), pending.ticket);
      if videoReady {
        videoPaused := false;
      }
      callbacks := callbacks + [Firing(pending.ticket, ok, pending.quality, pending.previous)];
      finishing := finishing - {pending.ticket};
    }

    method Confirm(ghost probe: nat)
      requires pendingQualitySwitch.Some? && probe in probes
      modifies this
      ensures deadline == None && pendingQualitySwitch == None && Reaches(old(View()), View())
      ensures var p := old(pendingQualitySwitch).value;
        && callbacks == old(callbacks) + [Firing(p.ticket, true, p.quality, p.previous)]
        && currentQuality == old(currentQuality) && !videoPaused && branch == old(branch)
    {
      hide Reaches, ProfileFor, AppsrcFor, Does;
      ghost var before := View();
      ReachesSame(before);
      var pending := TakeConfirmed(probe);
      ghost var taken := View();
      ReachesNext(before, before, TakeSuccess(probe), taken);
      CallBack(pending, true, true);
      ReachesNext(before, taken, Fire(pending.ticket), View());
    }

    method Fail(branchOk: bool)
      requires pendingQualitySwitch.Some?
      modifies this
      ensures deadline == None && pendingQualitySwitch == None && Reaches(old(View()), View())
      ensures var p := old(pendingQualitySwitch).value;
        && callbacks == old(callbacks) + [Firing(p.ticket, false, p.quality, p.previous)]
        && currentQuality == p.previous
      ensures if branchOk && old(webrtc) then !videoPaused && branch == Some(ProfileFor(currentQuality))
              else videoPaused == old(videoPaused) && branch == None
    {
      hide Reaches, ProfileFor, AppsrcFor, Does;
      ghost var before := View();
      ReachesSame(before);
      var pending := TakeFailed();
      ghost var taken := View();
      ReachesNext(before, before, TakeFailure, taken);
      var ready := RollBackBranch(pending, branchOk);
      ghost var rolledBack := View();
      ReachesNext(before, taken, RollBack(pending.ticket, ready), rolledBack);
      CallBack(pending, false, ready);
      ReachesNext(before, rolledBack, Fire(pending.ticket), View());
    }

    /** What finish_quality_switch leaves behind: nothing happens without a pending switch; otherwise that
        switch, and no other, is answered once, and on failure quality and encoder branch are put back. */
    twostate predicate Finished(ok: bool, branchOk: bool, wasPaused: bool)
      reads this
    {
      && pendingQualitySwitch == None
      && (old(pendingQualitySwitch).None? ==>
            callbacks == old(callbacks) && currentQuality == old(currentQuality) && branch == old(branch)
            && videoPaused == wasPaused)
      && (old(pendingQualitySwitch).Some? ==>
            var p := old(pendingQualitySwitch).value;
            && callbacks == old(callbacks) + [Firing(p.ticket, ok, p.quality, p.previous)]
            && currentQuality == (if ok then p.quality else p.previous)
            && if ok then !videoPaused && branch == old(branch)
               else if branchOk && old(webrtc) then !videoPaused && branch == Some(ProfileFor(p.previous))
               else videoPaused == wasPaused && branch == None)
    }

    /** finish_quality_switch: the pending switch, if there is one, is answered, and on failure undone. */
    method FinishQualitySwitch(ok: bool, branchOk: bool, ghost probe: nat)
      requires Valid() && (ok ==> probe in probes)
      modifies this
      ensures Valid() && Reaches(old(View()), View())
      ensures Finished(ok, branchOk, old(videoPaused))
    {
      hide Reaches, ProfileFor, AppsrcFor, Placed, SizeOk;
      ghost var before := View();
      ReachesSame(before);
      if pendingQualitySwitch.None? {
        if ok {
          probes := probes - {probe};
          ReachesNext(before, before, TakeSuccess(probe), View());
        }
      } else if ok {
        Confirm(probe);
      } else {
        Fail(branchOk);
      }
      ReachesKeepsInv(before, View());
    }

    /** The section under the lock in switch_quality that records a new switch. */
    method RecordSwitch(quality: string, now: int)
      requires webrtc && activePublished && pendingQualitySwitch.None? && IsOffered(quality) && quality != currentQuality
      modifies this
      ensures Does(old(View()), Request(quality), View())
      ensures deadline == Some(now + 5000)
      ensures pendingQualitySwitch == Some(Pending(old(switches), old(currentQuality), quality))
      ensures webrtc == old(webrtc) && callbacks == old(callbacks) && currentQuality == quality && videoPaused
      ensures !answerApplied
      ensures requesters == old(requesters)[old(switches) := quality] && probes == old(probes)
    {
      hide ProfileFor, AppsrcFor, Does, Sized, IsOffered;
      RequestIs(View(), quality);
      pendingQualitySwitch := Some(Pending(switches, currentQuality, quality));
      deadline, answerApplied, videoPaused := Some(now + 5000), false, true;
      requesters := requesters[switches := quality];
      switches := switches + 1;
      SetQuality(quality);
    }

    /** switch_quality asked for the quality already in force: the callback is called at once. */
    method AnswerUnchanged()
      requires webrtc && activePublished && pendingQualitySwitch.None? && IsOffered(currentQuality)
      requires switches !in finishing
      modifies this`switches, this`finishing, this`callbacks, this`videoPaused
      ensures Reaches(old(View()), View()) && videoPaused == old(videoPaused)
      ensures callbacks == old(callbacks) + [Firing(old(switches), true, currentQuality, currentQuality)]
    {
      hide Reaches, ProfileFor, AppsrcFor, Does;
      ghost var before := View();
      ReachesSame(before);
      RequestSameIs(before);
      var pending := Pending(switches, currentQuality, currentQuality);
      finishing := finishing[switches := Finishing(true, currentQuality, currentQuality, Some(false))];
      switches := switches + 1;
      ghost var recorded := View();
      ReachesNext(before, before, RequestSame, recorded);
      CallBack(pending, true, false);
      ReachesNext(before, recorded, Fire(pending.ticket), View());
    }

    /** switch_quality: the four ways to refuse, the answer to an unchanged quality, and the switch itself,
        which fails at once when the encoder branch cannot be reconfigured. */
    method SwitchQuality(quality: string, now: int, branchOk: bool, rollBackOk: bool) returns (r: SwitchResult)
      requires Valid()
      modifies this
      ensures Valid() && Reaches(old(View()), View())
      ensures r ==
        if quality !in {"360p", "720p", "1080p", "1440p"} then Rejected("INVALID_QUALITY")
        else if !(old(webrtc) && old(activePublished)) then Rejected("CALL_NOT_ACTIVE")
        else if old(pendingQualitySwitch).Some? then Rejected("LIVE_QUALITY_SWITCH_IN_PROGRESS")
        else Accepted
      ensures r.Rejected? ==> View() == old(View())
      ensures r.Accepted? && quality == old(currentQuality) ==>
        && callbacks == old(callbacks) + [Firing(old(switches), true, quality, quality)] && currentQuality == quality
        && pendingQualitySwitch == None && videoPaused == old(videoPaused) && branch == old(branch)
      ensures r.Accepted? && quality != old(currentQuality) && branchOk ==>
        && pendingQualitySwitch == Some(Pending(old(switches), old(currentQuality), quality))
        && deadline == Some(now + 5000) && currentQuality == quality && callbacks == old(callbacks)
        && branch == Some(ProfileFor(quality)) && videoPaused && !answerApplied
      ensures r.Accepted? && quality != old(currentQuality) && !branchOk ==>
        && pendingQualitySwitch == None && currentQuality == old(currentQuality)
        && callbacks == old(callbacks) + [Firing(old(switches), false, quality, old(currentQuality))]
        && videoPaused == !rollBackOk
        && branch == if rollBackOk then Some(ProfileFor(currentQuality)) else None
    {
      hide Reaches, ProfileFor, AppsrcFor, Does, Placed, SizeOk;
      ghost var before := View();
      ReachesSame(before);
      if !IsOffered(quality) {
        return Rejected("INVALID_QUALITY");
      }
      if !webrtc || !activePublished {
        return Rejected("CALL_NOT_ACTIVE");
      }
      if pendingQualitySwitch.Some? {
        return Rejected("LIVE_QUALITY_SWITCH_IN_PROGRESS");
      }
      r := Accepted;
      if quality == currentQuality {
        NextTicketIsFree(before);
        AnswerUnchanged();
      } else {
        StartSwitch(quality, now, branchOk, rollBackOk);
      }
      ReachesKeepsInv(before, View());
    }

    method StartSwitch(quality: string, now: int, branchOk: bool, rollBackOk: bool)
      requires webrtc && activePublished && pendingQualitySwitch.None? && IsOffered(quality) && quality != currentQuality
      modifies this
      ensures Reaches(old(View()), View()) && (deadline.Some? <==> pendingQualitySwitch.Some?)
      ensures branchOk ==>
        && pendingQualitySwitch == Some(Pending(old(switches), old(currentQuality), quality))
        && deadline == Some(now + 5000) && currentQuality == quality && callbacks == old(callbacks)
        && branch == Some(ProfileFor(quality)) && videoPaused && !answerApplied
      ensures !branchOk ==>
        && pendingQualitySwitch == None && currentQuality == old(currentQuality)
        && callbacks == old(callbacks) + [Firing(old(switches), false, quality, old(currentQuality))]
        && videoPaused == !rollBackOk
        && branch == if rollBackOk then Some(ProfileFor(currentQuality)) else None
    {
      hide Reaches, ProfileFor, AppsrcFor, Does;
      ghost var before := View();
      ReachesSame(before);
      var t := switches;
      RecordSwitch(quality, now);
      ghost var recorded := View();
      ReachesNext(before, before, Request(quality), recorded);
      var ok := ReconfigureVideoBranch(t, quality, branchOk);
      ghost var configured := View();
      ReachesNext(before, recorded, Reconfigure(t, ok), configured);
      if !ok {
        Fail(rollBackOk);
        ReachesOn(before, configured, View());
      }
    }

    /** One look of quality_switch_watchdog_loop: a switch that is still pending at its deadline fails. */
    method WatchdogTurn(now: int, branchOk: bool)
      requires Valid()
      modifies this
      ensures Valid() && Reaches(old(View()), View())
      ensures old(deadline).Some? && old(deadline).value <= now ==>
        old(pendingQualitySwitch).Some? && Finished(false, branchOk, old(videoPaused))
      ensures !(old(deadline).Some? && old(deadline).value <= now) ==> View() == old(View())
    {
      hide Reaches, Inv, ProfileFor;
      ReachesSame(View());
      if deadline.Some? && deadline.value <= now {
        FinishQualitySwitch(false, branchOk, 0);
      }
    }

    /** on_rtp_probe: the first packet after the answer confirms the switch. */
    method OnRtpProbe(branchOk: bool, ghost probe: nat)
      requires Valid() && probe !in probes
      modifies this
      ensures Valid() && Reaches(old(View()), View())
      ensures old(pendingQualitySwitch).Some? && old(answerApplied) ==> Finished(true, branchOk, old(videoPaused))
      ensures !(old(pendingQualitySwitch).Some? && old(answerApplied)) ==> View() == old(View())
    {
      hide Reaches, Placed, ProfileFor, AppsrcFor;
      ghost var before := View();
      ReachesSame(before);
      if pendingQualitySwitch.Some? && answerApplied {
        probes := probes[probe := pendingQualitySwitch.value.ticket];
        ghost var seen := View();
        ReachesNext(before, before, ProbeSees(probe), seen);
        NextKeepsInv(before, ProbeSees(probe));
        FinishQualitySwitch(true, branchOk, probe);
        ReachesOn(before, seen, View());
      }
    }

    /** on_remote_description_set, of an answer for the current call or a stale one. */
    method OnRemoteDescriptionSet(currentCall: bool, replied: bool, branchOk: bool)
      requires Valid()
      modifies this
      ensures Valid() && Reaches(old(View()), View())
      ensures !(old(webrtc) && currentCall) ==> View() == old(View())
      ensures old(webrtc) && currentCall && replied ==>
        && pendingQualitySwitch == old(pendingQualitySwitch) && callbacks == old(callbacks)
        && currentQuality == old(currentQuality) && branch == old(branch)
        && (if pendingQualitySwitch.Some? then answerApplied && !videoPaused else videoPaused == old(videoPaused))
      ensures old(webrtc) && currentCall && !replied ==> Finished(false, branchOk, old(videoPaused))
    {
      hide Reaches, Inv, ProfileFor;
      ghost var before := View();
      ReachesSame(before);
      if !webrtc || !currentCall {
        return;
      }
      if !replied {
        FinishQualitySwitch(false, branchOk, 0);
        return;
      }
      if pendingQualitySwitch.Some? {
        ApplyAnswer();
        ReachesKeepsInv(before, View());
      }
    }

    /** The answer is noted under the lock; after it the video goes on. */
    method ApplyAnswer()
      requires webrtc && pendingQualitySwitch.Some?
      modifies this`answerApplied, this`resumers, this`videoPaused
      ensures Reaches(old(View()), View()) && answerApplied && !videoPaused
    {
      hide Reaches, ProfileFor, AppsrcFor;
      ghost var before := View();
      ReachesSame(before);
      answerApplied, resumers := true, resumers + 1;
      ghost var answered := View();
      ReachesNext(before, before, Answer, answered);
      videoPaused, resumers := false, resumers - 1;
      ReachesNext(before, answered, QP.Resume, View());
    }

    /** A frame that could not be pushed, other than while flushing, stops the video; a switch under way fails. */
    method OnPushError(branchOk: bool)
      requires Valid()
      modifies this
      ensures Valid() && Reaches(old(View()), View())
      ensures Finished(false, branchOk, true)
    {
      hide Reaches, Placed, ProfileFor, AppsrcFor;
      ghost var before := View();
      ReachesSame(before);
      videoPaused := true;
      ghost var paused := View();
      ReachesNext(before, before, QP.Pause, paused);
      NextKeepsInv(before, QP.Pause);
      if pendingQualitySwitch.Some? {
        FinishQualitySwitch(false, branchOk, 0);
        ReachesOn(before, paused, View());
      }
    }

    /** on_bus_message with an error: one of the video branch does the same, unless the branch is being
        reconfigured at the time or the frames have been stopped; any other error changes nothing. */
    method OnBusError(fromVideoBranch: bool, reconfiguring: bool, framesStopped: bool, branchOk: bool)
      requires Valid()
      modifies this
      ensures Valid() && Reaches(old(View()), View())
      ensures if fromVideoBranch && !reconfiguring && !framesStopped then Finished(false, branchOk, true)
              else View() == old(View())
    {
      hide Reaches, Inv, ProfileFor;
      ReachesSame(View());
      if fromVideoBranch && !reconfiguring && !framesStopped {
        OnPushError(branchOk);
      }
    }

    method DropSwitch()
      modifies this`pendingQualitySwitch, this`deadline, this`answerApplied, this`discarded
      ensures deadline == None
      ensures View() == old(View()).(pending := None, answered := false,
                                     discarded := old(discarded) + Dropped(old(pendingQualitySwitch)))
    {
      discarded := discarded + Dropped(pendingQualitySwitch);
      pendingQualitySwitch, deadline, answerApplied := None, None, false;
    }

    /** The section under the lock in stop. */
    method Clear()
      modifies this
      ensures View() == Stopped(old(View())) && deadline == None
    {
      DropSwitch();
      webrtc, activePublished, appsrc, videoPaused, branch := false, false, NO_APPSRC, false, None;
    }

    /** stop: a pending switch is dropped without its callback being called. */
    method Stop()
      requires Valid()
      modifies this
      ensures Valid() && Does(old(View()), QP.Stop, View()) && callbacks == old(callbacks)
      ensures !webrtc && !activePublished && pendingQualitySwitch == None && deadline == None
      ensures !answerApplied && !videoPaused && branch == None
      ensures discarded == old(discarded) + Dropped(old(pendingQualitySwitch))
    {
      hide Inv, Next, Enabled, Does;
      ghost var before := View();
      StopIs(before);
      Clear();
      DoesKeepsInv(before, QP.Stop, View());
    }

    /** start, from where its pipeline has been built. */
    method Start(quality: string, pixels: Pixels)
      requires Valid()
      modifies this
      ensures Valid() && Reaches(old(View()), View())
      ensures webrtc && !activePublished && currentQuality == quality && callbacks == old(callbacks)
      ensures pendingQualitySwitch == None && deadline == None && !answerApplied && !videoPaused
      ensures branch == Some(ProfileFor(quality)) && appsrc.pixels == pixels
    {
      hide Reaches, Inv, ProfileFor, AppsrcFor;
      ghost var before := View();
      ReachesSame(before);
      Stop();
      ghost var stopped := View();
      ReachesNext(before, before, QP.Stop, stopped);
      SetUp(quality, pixels);
      ReachesNext(before, stopped, QP.Start(quality, pixels), View());
      ReachesKeepsInv(before, View());
    }

    method SetUp(quality: string, pixels: Pixels)
      requires !webrtc && !activePublished && pendingQualitySwitch.None? && deadline.None?
      modifies this
      ensures Does(old(View()), QP.Start(quality, pixels), View())
      ensures webrtc && !activePublished && currentQuality == quality && callbacks == old(callbacks)
      ensures pendingQualitySwitch.None? && deadline.None? && !answerApplied && !videoPaused
      ensures branch == Some(ProfileFor(quality)) && appsrc.pixels == pixels
    {
      hide ProfileFor, AppsrcFor, Does, Sized;
      StartIs(View(), quality, pixels);
      webrtc, activePublished, appsrc := true, false, appsrc.(pixels := pixels);
      answerApplied, videoPaused := false, false;
      branch, settled := Some(ProfileFor(quality)), quality;
      SetQuality(quality);
    }

    /** The connection is up: from now on switches are accepted. */
    method PublishActive()
      requires Valid() && webrtc
      modifies this`activePublished
      ensures Valid() && Does(old(View()), Activate, View()) && activePublished
    {
      hide Inv, ProfileFor, AppsrcFor;
      NextKeepsInv(View(), Activate);
      activePublished := true;
    }
  }

  lemma NextTicketIsFree(s: State)
    requires Inv(s)
    ensures s.accepted !in s.finishing
  {
    hide HasFired;
    assert !IsPlaced(s, s.accepted);
  }

  lemma DoesKeepsInv(s: State, step: Step, s': State)
    requires Inv(s) && Does(s, step, s')
    ensures Inv(s')
  {
    hide Inv, Next, Enabled;
    NextKeepsInv(s, step);
  }
}
