/** Which build a hand-over leaves serving, in terms of which of its steps failed. */
module CutoverRuns {
  import opened Json
  import opened Cutover

  /** The parts of a run's summary that its outcome reports. */
  datatype Standing = Standing(failure: Option<Action>, snapshotTried: bool, snapshotTaken: bool, stateRestored: bool,
                               artifactsRestored: bool, previousProved: bool, forward: bool, serving: Option<Artifacts>)

  function StandingOf(trace: seq<Event>): Standing {
    var p := Observe(trace);
    Standing(p.failure, p.snapshotTried, p.snapshotTaken, p.stateRestored, p.artifactsRestored, p.previousProved, p.forward, p.serving)
  }

  function Stand(s: Standing, event: Event): Standing {
    var Event(action, ok) := event;
    Standing(
      First(s.failure, action, ok),
      s.snapshotTried || action.Snapshot?,
      s.snapshotTaken || (action.Snapshot? && ok),
      s.stateRestored || (action.RestoreState? && ok),
      s.artifactsRestored || (action.Restore? && ok),
      s.previousProved || (action.VerifyRollback? && ok),
      s.forward || action.GoForward?,
      if action.Verify? && ok then Some(Candidate)
      else if action.VerifyRollback? && ok then Some(Previous)
      else if Moves(action) then None else s.serving)
  }

  lemma Extend(trace: seq<Event>, event: Event)
    ensures StandingOf(trace + [event]) == Stand(StandingOf(trace), event)
  {
    assert (trace + [event])[..|trace|] == trace;
  }

  // -------------------------------------------------------------- which steps failed

  predicate CandidateComesUp(r: ForwardResults) {
    r.replaced && r.started && r.verified
  }

  predicate PreviousComesUp(r: RollbackResults) {
    r.started && r.verified
  }

  /** The previous files are put back, on databases that were put back first if need be. */
  predicate PutsBack(candidateMayHaveRun: bool, r: RollbackResults) {
    r.stopped && (candidateMayHaveRun ==> r.stateRestored) && r.artifactsRestored
  }

  /** Rolling back is given up for going forward: a restore failed, or the previous build did
      not come up and could be stopped. */
  predicate GivesUp(candidateMayHaveRun: bool, r: RollbackResults) {
    r.stopped && (PutsBack(candidateMayHaveRun, r) ==> !PreviousComesUp(r) && r.stoppedAgain)
  }

  /** Something fails after the gateway was stopped. */
  predicate RollsBack(r: Results) {
    StopsGateway(r) && FirstFailure(r).Some?
  }

  predicate CandidateMayHaveRun(r: Results) {
    r.snapshotTaken && r.replaced
  }

  // -------------------------------------------------------------- the run, part by part

  lemma ForwardStands(trace: seq<Event>, r: ForwardResults)
    requires StandingOf(trace).failure.Some?
    ensures StandingOf(ForwardRun(trace, r))
         == StandingOf(trace).(forward := true, serving := if CandidateComesUp(r) then Some(Candidate) else None)
  {
    hide StandingOf;
    Extend(trace, Event(GoForward, true));
    var begun := trace + [Event(GoForward, true)];
    Extend(begun, Event(Replace, r.replaced));
    var replaced := begun + [Event(Replace, r.replaced)];
    Extend(replaced, Event(Start(Candidate), r.started));
    var started := replaced + [Event(Start(Candidate), r.started)];
    Extend(started, Event(Verify, r.verified));
    Extend(started, Event(Stop, r.stopped));
    Extend(started + [Event(Verify, r.verified)], Event(Stop, r.stopped));
  }

  lemma RestartStands(trace: seq<Event>, r: RollbackResults)
    requires StandingOf(trace).failure.Some?
    ensures var s, t := StandingOf(trace), StandingOf(RestartRun(trace, r));
            if PreviousComesUp(r) then t == s.(previousProved := true, serving := Some(Previous))
            else if r.stoppedAgain then t == s.(forward := true, serving := if CandidateComesUp(r.forward) then Some(Candidate) else None)
            else t == s.(serving := None)
  {
    hide StandingOf, ForwardRun;
    Extend(trace, Event(Start(Previous), r.started));
    var started := trace + [Event(Start(Previous), r.started)];
    Extend(started, Event(VerifyRollback, r.verified));
    var verified := if r.started then started + [Event(VerifyRollback, r.verified)] else started;
    Extend(verified, Event(Stop, r.stoppedAgain));
    ForwardStands(verified + [Event(Stop, r.stoppedAgain)], r.forward);
  }

  /** What rolling back leaves, from what it found. */
  function AfterRollback(s: Standing, candidateMayHaveRun: bool, r: RollbackResults): Standing {
    Standing(
      s.failure,
      s.snapshotTried,
      s.snapshotTaken,
      s.stateRestored || (r.stopped && candidateMayHaveRun && r.stateRestored),
      s.artifactsRestored || PutsBack(candidateMayHaveRun, r),
      s.previousProved || (PutsBack(candidateMayHaveRun, r) && PreviousComesUp(r)),
      s.forward || GivesUp(candidateMayHaveRun, r),
      if PutsBack(candidateMayHaveRun, r) && PreviousComesUp(r) then Some(Previous)
      else if GivesUp(candidateMayHaveRun, r) && CandidateComesUp(r.forward) then Some(Candidate)
      else None)
  }

  lemma RestoreStands(trace: seq<Event>, candidateMayHaveRun: bool, r: RollbackResults)
    requires StandingOf(trace).failure.Some? && r.stopped && (candidateMayHaveRun ==> r.stateRestored && StandingOf(trace).stateRestored)
    ensures StandingOf(RestoreRun(trace, r)) == AfterRollback(StandingOf(trace), candidateMayHaveRun, r)
  {
    hide StandingOf, ForwardRun, RestartRun;
    Extend(trace, Event(Restore, r.artifactsRestored));
    var restored := trace + [Event(Restore, r.artifactsRestored)];
    if r.artifactsRestored {
      RestartStands(restored, r);
    } else {
      ForwardStands(restored, r.forward);
    }
  }

  lemma RollbackStands(trace: seq<Event>, candidateMayHaveRun: bool, r: RollbackResults)
    requires StandingOf(trace).failure.Some?
    ensures StandingOf(RollbackRun(trace, candidateMayHaveRun, r)) == AfterRollback(StandingOf(trace), candidateMayHaveRun, r)
  {
    hide StandingOf, ForwardRun, RestoreRun;
    Extend(trace, Event(Stop, r.stopped));
    var stopped := trace + [Event(Stop, r.stopped)];
    Extend(stopped, Event(RestoreState, r.stateRestored));
    var restored := stopped + [Event(RestoreState, r.stateRestored)];
    if r.stopped && !candidateMayHaveRun {
      RestoreStands(stopped, candidateMayHaveRun, r);
    } else if r.stopped && r.stateRestored {
      RestoreStands(restored, candidateMayHaveRun, r);
    } else if r.stopped {
      ForwardStands(restored, r.forward);
    }
  }

  const NOTHING := Standing(None, false, false, false, false, false, false, None)

  /** The first step that fails. */
  function FirstFailure(r: Results): Option<Action> {
    if !r.locked then Some(AcquireLock)
    else if !r.validated then Some(Validate)
    else if !r.stopped then Some(Stop)
    else if !r.snapshotTaken then Some(Snapshot)
    else if !r.replaced then Some(Replace)
    else if !r.started then Some(Start(Candidate))
    else if !r.verified then Some(Verify)
    else None
  }

  predicate StopsGateway(r: Results) {
    r.locked && r.validated && r.stopped
  }

  /** What a run leaves. */
  function AfterRun(r: Results): Standing {
    var handed := NOTHING.(failure := FirstFailure(r), snapshotTried := StopsGateway(r),
                           snapshotTaken := StopsGateway(r) && r.snapshotTaken);
    if FirstFailure(r).None? then handed.(serving := Some(Candidate))
    else if StopsGateway(r) then AfterRollback(handed, CandidateMayHaveRun(r), r.rollback)
    else handed
  }

  lemma InstallStands(trace: seq<Event>, r: Results)
    requires r.locked && r.validated && r.stopped && r.snapshotTaken
    requires StandingOf(trace) == NOTHING.(snapshotTried := true, snapshotTaken := true)
    ensures StandingOf(InstallRun(trace, r)) == AfterRun(r)
  {
    hide StandingOf, RollbackRun;
    Extend(trace, Event(Replace, r.replaced));
    var replaced := trace + [Event(Replace, r.replaced)];
    Extend(replaced, Event(Start(Candidate), r.started));
    var started := replaced + [Event(Start(Candidate), r.started)];
    Extend(started, Event(Verify, r.verified));
    if !r.replaced {
      RollbackStands(replaced, false, r.rollback);
    } else if !r.started {
      RollbackStands(started, true, r.rollback);
    } else if !r.verified {
      RollbackStands(started + [Event(Verify, r.verified)], true, r.rollback);
    }
  }

  lemma LockedStands(trace: seq<Event>, r: Results)
    requires r.locked && StandingOf(trace) == NOTHING
    ensures StandingOf(LockedRun(trace, r)) == AfterRun(r)
  {
    hide StandingOf, RollbackRun, InstallRun;
    Extend(trace, Event(Validate, r.validated));
    var validated := trace + [Event(Validate, r.validated)];
    Extend(validated, Event(Stop, r.stopped));
    var stopped := validated + [Event(Stop, r.stopped)];
    Extend(stopped, Event(Snapshot, r.snapshotTaken));
    var snapshot := stopped + [Event(Snapshot, r.snapshotTaken)];
    if r.validated && r.stopped && r.snapshotTaken {
      InstallStands(snapshot, r);
    } else if r.validated && r.stopped {
      RollbackStands(snapshot, false, r.rollback);
    }
  }

  lemma RunStands(r: Results)
    ensures StandingOf(Run(r)) == AfterRun(r)
  {
    hide LockedRun;
    NothingObserved();
    assert StandingOf([]) == NOTHING;
    hide StandingOf;
    Extend([], Event(AcquireLock, r.locked));
    var locked := [] + [Event(AcquireLock, r.locked)];
    if r.locked {
      LockedStands(locked, r);
      Extend(LockedRun(locked, r), Event(ReleaseLock, true));
    }
  }

  // -------------------------------------------------------------- which build serves

  /** Whatever fails, this is when each build is the one proved to serve at the end. */
  lemma WhoServes(r: Results)
    ensures Observe(Run(r)).failure == FirstFailure(r)
    ensures Observe(Run(r)).serving == Some(Candidate)
       <==> || FirstFailure(r).None?
            || (RollsBack(r) && GivesUp(CandidateMayHaveRun(r), r.rollback) && CandidateComesUp(r.rollback.forward))
    ensures Observe(Run(r)).serving == Some(Previous)
       <==> RollsBack(r) && PutsBack(CandidateMayHaveRun(r), r.rollback) && PreviousComesUp(r.rollback)
  {
    hide Observe, Run;
    RunStands(r);
  }

  /** An outcome that says the previous files were restored does not say that they serve: the
      previous build serves exactly if it came up, and the candidate serves exactly if it
      did not, could be stopped, and going forward succeeded. */
  lemma RestoredFilesServe(r: Results, o: Outcome)
    requires Reports(o, Observe(Run(r))) && o.previousArtifactsRestored
    ensures Observe(Run(r)).serving == Some(Previous) <==> PreviousComesUp(r.rollback)
    ensures Observe(Run(r)).serving == Some(Candidate)
       <==> !PreviousComesUp(r.rollback) && r.rollback.stoppedAgain && CandidateComesUp(r.rollback.forward)
    ensures o.forwardRecovery.ServingCandidate? <==> Observe(Run(r)).serving == Some(Candidate)
  {
    hide Observe, Run;
    RunStands(r);
  }

  /** After a failed snapshot the candidate still serves exactly if rolling back was given up
      and going forward succeeded, with no copy of the databases to return to. */
  lemma ServesWithoutSnapshot(r: Results, o: Outcome)
    requires Reports(o, Observe(Run(r))) && o.failurePhase.DurableSnapshotCapture?
    ensures !o.durableSnapshotAvailable
    ensures Observe(Run(r)).serving == Some(Candidate)
       <==> GivesUp(false, r.rollback) && CandidateComesUp(r.rollback.forward)
  {
    hide Observe, Run;
    RunStands(r);
  }

  /** The outcome's failure phase names the first step that failed. */
  lemma FailureIsNamed(r: Results, o: Outcome)
    requires Reports(o, Observe(Run(r)))
    ensures o.failurePhase == if !r.locked then ControllerLock
                              else if !r.validated then Preflight
                              else if !r.stopped then GatewayStop
                              else if !r.snapshotTaken then DurableSnapshotCapture
                              else if !r.replaced then ArtifactReplacement
                              else if !r.started then GatewayRestartReadiness
                              else if !r.verified then PostCutoverVerification
                              else NoFailure
  {
    hide Observe, Run;
    RunStands(r);
  }

  // -------------------------------------------------------------- two runs that go forward

  const WENT_FORWARD := ForwardResults(true, true, true, false)

  // The candidate was started and not proved to serve; databases and files were put back, and
  // then the previous build did not start.
  const PREVIOUS_NOT_STARTED := Results(true, true, true, true, true, true, false,
                                        RollbackResults(true, true, true, false, false, true, WENT_FORWARD))

  // The snapshot was not taken, and then the previous build did not start.
  const NO_SNAPSHOT := Results(true, true, true, false, false, false, false,
                               RollbackResults(true, false, true, false, false, true, WENT_FORWARD))

  /** The outcome says that the previous files and databases were restored, and the candidate serves. */
  lemma RestoredFilesMayNotServe()
    ensures var trace, o := Run(PREVIOUS_NOT_STARTED), Outcome(PostCutoverVerification, true, true, true, false, ServingCandidate);
            Reports(o, Observe(trace)) && Observe(trace).serving == Some(Candidate)
  {
    hide Observe, Run;
    RunStands(PREVIOUS_NOT_STARTED);
  }

  /** The candidate was started and serves, though its databases were never copied. */
  lemma MayServeWithoutSnapshot()
    ensures var trace := Run(NO_SNAPSHOT);
            && Observe(trace).serving == Some(Candidate) && !Observe(trace).snapshotTaken
            && Did(trace, Start(Candidate)) && !Did(trace, Snapshot)
  {
    hide Observe;
    RunStands(NO_SNAPSHOT);
    ObserveMeans(Run(NO_SNAPSHOT));
  }
}
