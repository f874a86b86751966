/** The hand-over from the running gateway to a candidate build, with rollback and forward recovery. */
module Cutover {
  import opened Json

  /** Which build the installed files belong to; an interrupted replacement may leave some of each. */
  datatype Artifacts = Previous | Candidate | Mixed

  /** The databases are clean until the candidate may have written to them. */
  datatype Durable = Clean | Dirty

  datatype Action =
    | AcquireLock | ReleaseLock
    | Validate | Stop | Start(build: Artifacts)
    | Snapshot | RestoreState | Replace | Restore
    | Verify | VerifyRollback
    | GoForward | Cleanup

  datatype Event = Event(action: Action, ok: bool)

  // -------------------------------------------------------------- what a run has done

  /** A summary of the events so far: what failed first, whether the lock is held, the check
      before the stop passed, the gateway stopped and the databases clean, whether rolling back has failed, whether forward recovery
      has begun, which steps succeeded, which build was started and then proved to serve, and
      whether something was started and neither proved to serve nor told to stop since, and
      whether a stop or a step of forward recovery failed. */
  datatype Progress = Progress(failure: Option<Action>, held: bool, validated: bool, stopped: bool, clean: bool, rollbackFailed: bool, forward: bool,
                               touched: bool, snapshotTried: bool, snapshotTaken: bool, stateRestored: bool,
                               artifactsRestored: bool, previousProved: bool, serving: Option<Artifacts>,
                               loose: bool, stuck: bool)

  const NOTHING_DONE := Progress(None, false, false, false, true, false, false, false, false, false, false, false, false, None, false, false)

  predicate Moves(action: Action) {
    action.Stop? || action.Start? || action.RestoreState? || action.Replace? || action.Restore? || action.GoForward?
  }

  predicate Touches(action: Action) {
    action.Snapshot? || action.RestoreState? || action.Replace? || action.Restore?
  }

  predicate RollsBack(action: Action) {
    action.RestoreState? || action.Restore? || action == Start(Previous) || action.VerifyRollback?
  }

  predicate GoesForward(action: Action) {
    action.Replace? || action.Start? || action.Verify?
  }

  function Track(p: Progress, event: Event): Progress {
    var Event(action, ok) := event;
    Progress(
      First(p.failure, action, ok),
      if action.AcquireLock? then ok else p.held && !action.ReleaseLock?,
      p.validated || (action.Validate? && ok),
      if action.Stop? then ok else p.stopped && !action.Start?,
      if action.RestoreState? then ok && p.stopped else p.clean && (action.Start? ==> action.build.Previous?),
      p.rollbackFailed || (RollsBack(action) && !ok),
      p.forward || action.GoForward?,
      p.touched || Touches(action),
      p.snapshotTried || action.Snapshot?,
      p.snapshotTaken || (action.Snapshot? && ok),
      p.stateRestored || (action.RestoreState? && ok),
      p.artifactsRestored || (action.Restore? && ok),
      p.previousProved || (action.VerifyRollback? && ok),
      if action.Verify? && ok then Some(Candidate)
      else if action.VerifyRollback? && ok then Some(Previous)
      else if Moves(action) then None else p.serving,
      action.Start? || (p.loose && !action.Stop? && !(ok && (action.Verify? || action.VerifyRollback?))),
      p.stuck || (!ok && (action.Stop? || (p.forward && GoesForward(action)))))
  }

  /** The first failure of a run. */
  function First(failure: Option<Action>, action: Action, ok: bool): (first: Option<Action>)
    ensures failure.Some? || ok ==> first == failure
  {
    if failure.None? && !ok then Some(action) else failure
  }

  function Observe(trace: seq<Event>): Progress {
    if trace == [] then NOTHING_DONE else Track(Observe(trace[..|trace| - 1]), trace[|trace| - 1])
  }

  // -------------------------------------------------------------- what is safe to do next

  predicate Resolved(p: Progress) {
    || !p.touched
    || (p.serving == Some(Candidate) && !p.forward)
    || p.serving == Some(Previous)
  }

  predicate MayStop(p: Progress) {
    p.held && p.validated
  }

  /** The previous build only ever starts after a failure, on databases the candidate has not
      spoiled, and never once forward recovery has begun. The candidate starts once, or going
      forward. */
  predicate MayStart(p: Progress, build: Artifacts) {
    && MayTouch(p) && !build.Mixed?
    && (build.Previous? ==> p.clean && !p.forward && p.failure.Some?)
    && (build.Candidate? ==> p.forward || p.failure.None?)
  }

  predicate MayTouch(p: Progress) {
    p.held && p.stopped
  }

  predicate MayRestore(p: Progress) {
    MayTouch(p) && !p.forward
  }

  predicate MayReplace(p: Progress) {
    MayTouch(p) && (p.forward || p.failure.None?)
  }

  predicate MayGoForward(p: Progress) {
    MayTouch(p) && p.rollbackFailed
  }

  predicate MayCleanUp(p: Progress) {
    !p.held && Resolved(p)
  }

  predicate Allowed(p: Progress, action: Action) {
    match action
    case Start(build) => MayStart(p, build)
    case Stop => MayStop(p)
    case Snapshot => MayTouch(p)
    case RestoreState => MayRestore(p)
    case Replace => MayReplace(p)
    case Restore => MayRestore(p)
    case GoForward => MayGoForward(p)
    case Cleanup => MayCleanUp(p)
    case _ => true
  }

  predicate Safe(trace: seq<Event>) {
    trace != [] ==>
      Safe(trace[..|trace| - 1]) && Allowed(Observe(trace[..|trace| - 1]), trace[|trace| - 1].action)
  }

  // -------------------------------------------------------------- the same in terms of the events

  predicate StartsOther(event: Event) {
    event.action.Start? && !event.action.build.Previous?
  }

  predicate Succeeded(event: Event, action: Action) {
    event == Event(action, true)
  }

  /** Between a and b no event has the gateway started. */
  predicate NoStart(trace: seq<Event>, a: nat, b: nat)
    requires b <= |trace|
  {
    forall i | a <= i < b :: !trace[i].action.Start?
  }

  predicate NoOtherStart(trace: seq<Event>, a: nat, b: nat)
    requires b <= |trace|
  {
    forall i | a <= i < b :: !StartsOther(trace[i])
  }

  /** The gateway was stopped before event i and not started in between. */
  predicate StoppedBefore(trace: seq<Event>, i: nat)
    requires i <= |trace|
  {
    exists k | 0 <= k < i :: Succeeded(trace[k], Stop) && NoStart(trace, k, i)
  }

  /** The databases were restored before event i, with the gateway stopped, and no candidate
      has been started on them since. */
  predicate RestoredBefore(trace: seq<Event>, i: nat)
    requires i <= |trace|
  {
    exists j | 0 <= j < i :: Succeeded(trace[j], RestoreState) && StoppedBefore(trace, j) && NoOtherStart(trace, j, i)
  }

  predicate LockedBefore(trace: seq<Event>, i: nat)
    requires i <= |trace|
  {
    exists k | 0 <= k < i :: Succeeded(trace[k], AcquireLock) && NoRelease(trace, k, i)
  }

  predicate NoRelease(trace: seq<Event>, a: nat, b: nat)
    requires b <= |trace|
  {
    forall i | a <= i < b :: !trace[i].action.ReleaseLock?
  }

  predicate NoMove(trace: seq<Event>, a: nat, b: nat)
    requires b <= |trace|
  {
    forall i | a <= i < b :: !Moves(trace[i].action)
  }

  /** A build was proved to serve before event i and nothing was stopped, started or replaced since. */
  predicate ProvedBefore(trace: seq<Event>, i: nat, proof: Action)
    requires i <= |trace|
  {
    exists k | 0 <= k < i :: Succeeded(trace[k], proof) && NoMove(trace, k, i)
  }

  lemma {:induction false} StoppedMeans(trace: seq<Event>, i: nat)
    requires i <= |trace| && Observe(trace[..i]).stopped
    ensures StoppedBefore(trace, i)
    decreases i
  {
    if i > 0 {
      assert trace[..i][..i - 1] == trace[..i - 1];
      if trace[i - 1].action.Stop? {
        assert Succeeded(trace[i - 1], Stop) && NoStart(trace, i - 1, i);
      } else {
        StoppedMeans(trace, i - 1);
        var k :| 0 <= k < i - 1 && Succeeded(trace[k], Stop) && NoStart(trace, k, i - 1);
        assert NoStart(trace, k, i);
      }
    }
  }

  lemma {:induction false} CleanMeans(trace: seq<Event>, i: nat)
    requires i <= |trace| && Observe(trace[..i]).clean
    ensures NoOtherStart(trace, 0, i) || RestoredBefore(trace, i)
    decreases i
  {
    if i > 0 {
      assert trace[..i][..i - 1] == trace[..i - 1];
      if trace[i - 1].action.RestoreState? {
        StoppedMeans(trace, i - 1);
        assert Succeeded(trace[i - 1], RestoreState) && NoOtherStart(trace, i - 1, i);
      } else {
        CleanMeans(trace, i - 1);
        if !NoOtherStart(trace, 0, i - 1) {
          var j :| 0 <= j < i - 1 && Succeeded(trace[j], RestoreState) && StoppedBefore(trace, j) && NoOtherStart(trace, j, i - 1);
          assert NoOtherStart(trace, j, i);
        }
      }
    }
  }

  lemma {:induction false} HeldMeans(trace: seq<Event>, i: nat)
    requires i <= |trace| && Observe(trace[..i]).held
    ensures LockedBefore(trace, i)
    decreases i
  {
    if i > 0 {
      assert trace[..i][..i - 1] == trace[..i - 1];
      if trace[i - 1].action.AcquireLock? {
        assert Succeeded(trace[i - 1], AcquireLock) && NoRelease(trace, i - 1, i);
      } else {
        HeldMeans(trace, i - 1);
        var k :| 0 <= k < i - 1 && Succeeded(trace[k], AcquireLock) && NoRelease(trace, k, i - 1);
        assert NoRelease(trace, k, i);
      }
    }
  }

  lemma {:induction false} ServingMeans(trace: seq<Event>, i: nat)
    requires i <= |trace| && Observe(trace[..i]).serving.Some?
    ensures ProvedBefore(trace, i, if Observe(trace[..i]).serving.value.Candidate? then Verify else VerifyRollback)
    decreases i
  {
    if i > 0 {
      assert trace[..i][..i - 1] == trace[..i - 1];
      var proof := if Observe(trace[..i]).serving.value.Candidate? then Verify else VerifyRollback;
      if trace[i - 1] == Event(proof, true) {
        assert Succeeded(trace[i - 1], proof) && NoMove(trace, i - 1, i);
      } else {
        ServingMeans(trace, i - 1);
        var k :| 0 <= k < i - 1 && Succeeded(trace[k], proof) && NoMove(trace, k, i - 1);
        assert NoMove(trace, k, i);
      }
    }
  }

  lemma {:induction false} ForwardMeans(trace: seq<Event>, i: nat)
    requires i <= |trace|
    ensures Observe(trace[..i]).forward <==> exists k | 0 <= k < i :: trace[k].action.GoForward?
    decreases i
  {
    if i > 0 {
      assert trace[..i][..i - 1] == trace[..i - 1];
      ForwardMeans(trace, i - 1);
    }
  }

  lemma {:induction false} TouchedMeans(trace: seq<Event>, i: nat)
    requires i <= |trace|
    ensures Observe(trace[..i]).touched <==> exists k | 0 <= k < i :: Touches(trace[k].action)
    decreases i
  {
    if i > 0 {
      assert trace[..i][..i - 1] == trace[..i - 1];
      TouchedMeans(trace, i - 1);
    }
  }

  lemma NothingObserved()
    ensures Observe([]) == NOTHING_DONE
  {
  }

  predicate Did(trace: seq<Event>, action: Action) {
    Event(action, true) in trace
  }

  /** The first n events all succeeded. */
  predicate AllOk(trace: seq<Event>, n: nat)
    requires n <= |trace|
  {
    forall k | 0 <= k < n :: trace[k].ok
  }

  /** Which steps succeeded, in terms of the events. */
  lemma {:induction false} ObserveMeans(trace: seq<Event>)
    ensures var p := Observe(trace);
            && (p.snapshotTaken <==> Did(trace, Snapshot)) && (p.stateRestored <==> Did(trace, RestoreState))
            && (p.artifactsRestored <==> Did(trace, Restore)) && (p.previousProved <==> Did(trace, VerifyRollback))
    decreases |trace|
  {
    if trace != [] {
      var n := |trace| - 1;
      ObserveMeans(trace[..n]);
      DidMore(trace, Snapshot);
      DidMore(trace, RestoreState);
      DidMore(trace, Restore);
      DidMore(trace, VerifyRollback);
    }
  }

  /** A snapshot was tried once there is an event of it, whether or not it succeeded. */
  lemma {:induction false} TriedMeans(trace: seq<Event>, i: nat)
    requires i <= |trace|
    ensures Observe(trace[..i]).snapshotTried <==> exists k | 0 <= k < i :: trace[k].action == Snapshot
    decreases i
  {
    if i > 0 {
      assert trace[..i][..i - 1] == trace[..i - 1];
      TriedMeans(trace, i - 1);
    }
  }

  lemma DidMore(trace: seq<Event>, action: Action)
    requires trace != []
    ensures Did(trace, action) <==> Did(trace[..|trace| - 1], action) || trace[|trace| - 1] == Event(action, true)
  {
    assert trace == trace[..|trace| - 1] + [trace[|trace| - 1]];
  }

  /** The recorded failure is the first event that failed. */
  lemma {:induction false} FailureMeans(trace: seq<Event>, i: nat)
    requires i <= |trace|
    ensures match Observe(trace[..i]).failure
            case None => AllOk(trace, i)
            case Some(action) => exists k | 0 <= k < i :: trace[k] == Event(action, false) && AllOk(trace, k)
    decreases i
  {
    if i > 0 {
      assert trace[..i][..i - 1] == trace[..i - 1];
      FailureMeans(trace, i - 1);
    }
  }

  lemma {:induction false} SafeAt(trace: seq<Event>, i: nat)
    requires Safe(trace) && i < |trace|
    ensures Allowed(Observe(trace[..i]), trace[i].action)
    decreases |trace|
  {
    if i < |trace| - 1 {
      SafeAt(trace[..|trace| - 1], i);
      assert trace[..|trace| - 1][..i] == trace[..i];
    }
  }

  /** In a safe run the previous build is started only if no candidate start was attempted
      before it, or the databases were restored, with the gateway stopped, after the last. */
  lemma NoStaleStart(trace: seq<Event>, i: nat)
    requires Safe(trace) && i < |trace| && trace[i].action == Start(Previous)
    ensures NoOtherStart(trace, 0, i) || RestoredBefore(trace, i)
  {
    SafeAt(trace, i);
    CleanMeans(trace, i);
  }

  lemma {:induction false} ValidatedMeans(trace: seq<Event>, i: nat)
    requires i <= |trace|
    ensures Observe(trace[..i]).validated <==> exists k | 0 <= k < i :: Succeeded(trace[k], Validate)
    decreases i
  {
    if i > 0 {
      assert trace[..i][..i - 1] == trace[..i - 1];
      ValidatedMeans(trace, i - 1);
    }
  }

  /** The gateway is only ever stopped under the lock, after the check before the stop passed. */
  lemma StoppedOnlyAfterValidation(trace: seq<Event>, i: nat)
    requires Safe(trace) && i < |trace| && trace[i].action.Stop?
    ensures LockedBefore(trace, i) && exists k | 0 <= k < i :: Succeeded(trace[k], Validate)
  {
    SafeAt(trace, i);
    HeldMeans(trace, i);
    ValidatedMeans(trace, i);
  }

  /** After forward recovery begins no previous build starts; whatever starts is one whole
      build, on a stopped gateway and under the lock. */
  lemma StartsAreSound(trace: seq<Event>, i: nat)
    requires Safe(trace) && i < |trace| && trace[i].action.Start?
    ensures !trace[i].action.build.Mixed?
    ensures trace[i].action.build.Previous? ==> forall k | 0 <= k < i :: !trace[k].action.GoForward?
    ensures StoppedBefore(trace, i) && LockedBefore(trace, i)
  {
    SafeAt(trace, i);
    ForwardMeans(trace, i);
    StoppedMeans(trace, i);
    HeldMeans(trace, i);
  }

  /** The previous build is only started after something has failed. */
  lemma PreviousStartsAfterFailure(trace: seq<Event>, i: nat)
    requires Safe(trace) && i < |trace| && trace[i].action == Start(Previous)
    ensures exists k | 0 <= k < i :: !trace[k].ok
  {
    SafeAt(trace, i);
    FailureMeans(trace, i);
  }

  /** The gateway was told to stop, or proved to serve. */
  predicate Settles(event: Event) {
    event.action.Stop? || Succeeded(event, Verify) || Succeeded(event, VerifyRollback)
  }

  /** At the end of a run nothing is left running unproved: every start is followed by a stop
      or by a proof that it serves. */
  lemma {:induction false} NothingLeftLoose(trace: seq<Event>, i: nat)
    requires !Observe(trace).loose && i < |trace| && trace[i].action.Start?
    ensures exists k | i < k < |trace| :: Settles(trace[k])
    decreases |trace|
  {
    var n := |trace| - 1;
    if !Settles(trace[n]) {
      NothingLeftLoose(trace[..n], i);
      var k :| i < k < n && Settles(trace[..n][k]);
      assert Settles(trace[k]);
    }
  }

  predicate Sticks(trace: seq<Event>, k: nat)
    requires k < |trace|
  {
    !trace[k].ok && (trace[k].action.Stop? || (GoesForward(trace[k].action) && exists j | 0 <= j < k :: trace[j].action.GoForward?))
  }

  /** A run is stuck only if a stop failed, or, going forward, installing, starting or proving
      the candidate did. */
  lemma {:induction false} StuckMeans(trace: seq<Event>, i: nat)
    requires i <= |trace| && Observe(trace[..i]).stuck
    ensures exists k | 0 <= k < i :: Sticks(trace, k)
    decreases i
  {
    if i > 0 {
      assert trace[..i][..i - 1] == trace[..i - 1];
      if Observe(trace[..i - 1]).stuck {
        StuckMeans(trace, i - 1);
      } else {
        ForwardMeans(trace, i - 1);
        assert Sticks(trace, i - 1);
      }
    }
  }

  /** Databases and files are touched only under the lock with the gateway stopped. */
  lemma TouchedOnlyWhileStopped(trace: seq<Event>, i: nat)
    requires Safe(trace) && i < |trace| && Touches(trace[i].action)
    ensures StoppedBefore(trace, i) && LockedBefore(trace, i)
  {
    SafeAt(trace, i);
    StoppedMeans(trace, i);
    HeldMeans(trace, i);
  }

  predicate BeganForward(trace: seq<Event>, i: nat)
    requires i <= |trace|
  {
    exists k | 0 <= k < i :: trace[k].action.GoForward?
  }

  /** A step that puts the previous build back was tried and failed before event i. */
  predicate FailedToRollBack(trace: seq<Event>, i: nat)
    requires i <= |trace|
  {
    exists k | 0 <= k < i ::
      !trace[k].ok && trace[k].action in {RestoreState, Restore, Start(Previous), VerifyRollback}
  }

  lemma {:induction false} RollbackFailedMeans(trace: seq<Event>, i: nat)
    requires i <= |trace|
    ensures Observe(trace[..i]).rollbackFailed <==> FailedToRollBack(trace, i)
    decreases i
  {
    if i > 0 {
      assert trace[..i][..i - 1] == trace[..i - 1];
      RollbackFailedMeans(trace, i - 1);
    }
  }

  /** Forward recovery begins only after rolling back failed, and rolling back never resumes.
      The candidate is installed or started only while nothing has failed, or going forward. */
  lemma ForwardOnlyAfterRollbackFailed(trace: seq<Event>, i: nat)
    requires Safe(trace) && i < |trace|
    ensures trace[i].action.GoForward? ==> FailedToRollBack(trace, i) && StoppedBefore(trace, i) && LockedBefore(trace, i)
    ensures trace[i].action in {RestoreState, Restore, Start(Previous)} ==> !BeganForward(trace, i)
    ensures trace[i].action in {Replace, Start(Candidate)} ==> AllOk(trace, i) || BeganForward(trace, i)
  {
    hide Safe, Observe, FailedToRollBack, StoppedBefore, LockedBefore;
    SafeAt(trace, i);
    ForwardMeans(trace, i);
    RollbackFailedMeans(trace, i);
    FailureMeans(trace, i);
    if trace[i].action.GoForward? {
      StoppedMeans(trace, i);
      HeldMeans(trace, i);
    }
  }

  /** The snapshot is deleted only if nothing was touched, or the candidate was proved to
      serve without forward recovery, or the previous build was proved to serve again. */
  lemma SnapshotKeptWhileUnresolved(trace: seq<Event>, i: nat)
    requires Safe(trace) && i < |trace| && trace[i].action.Cleanup?
    ensures || (forall k | 0 <= k < i :: !Touches(trace[k].action))
            || (ProvedBefore(trace, i, Verify) && forall k | 0 <= k < i :: !trace[k].action.GoForward?)
            || ProvedBefore(trace, i, VerifyRollback)
  {
    SafeAt(trace, i);
    ForwardMeans(trace, i);
    var p := Observe(trace[..i]);
    if p.serving.Some? {
      ServingMeans(trace, i);
    }
    TouchedMeans(trace, i);
  }

  // -------------------------------------------------------------- the machine

  // What each kind of event does to the summary, spelled out for the methods below.

  function AfterAcquireLock(p: Progress, ok: bool): Progress {
    p.(failure := First(p.failure, AcquireLock, ok), held := ok)
  }

  lemma TrackAcquireLock(p: Progress, ok: bool)
    ensures var q := AfterAcquireLock(p, ok);
            && Track(p, Event(AcquireLock, ok)) == q && q.stopped == p.stopped && q.clean == p.clean
            && q.serving == p.serving
  {
  }

  function AfterReleaseLock(p: Progress): Progress {
    p.(held := false)
  }

  lemma TrackReleaseLock(p: Progress)
    ensures var q := AfterReleaseLock(p);
            && Track(p, Event(ReleaseLock, true)) == q && q.stopped == p.stopped && q.clean == p.clean
            && q.serving == p.serving
  {
  }

  function AfterValidate(p: Progress, ok: bool): Progress {
    p.(failure := First(p.failure, Validate, ok), validated := p.validated || ok)
  }

  lemma TrackValidate(p: Progress, ok: bool)
    ensures var q := AfterValidate(p, ok);
            && Track(p, Event(Validate, ok)) == q && q.stopped == p.stopped && q.clean == p.clean && q.serving == p.serving
  {
  }

  function AfterStop(p: Progress, ok: bool): Progress {
    p.(failure := First(p.failure, Stop, ok), stopped := ok, serving := None, loose := false, stuck := p.stuck || !ok)
  }

  lemma TrackStop(p: Progress, ok: bool)
    ensures var q := AfterStop(p, ok);
            && Track(p, Event(Stop, ok)) == q && q.stopped == ok && q.clean == p.clean
            && q.serving == None
  {
  }

  function AfterSnapshot(p: Progress, ok: bool): Progress {
    p.(failure := First(p.failure, Snapshot, ok), touched := true, snapshotTried := true,
       snapshotTaken := p.snapshotTaken || ok)
  }

  lemma TrackSnapshot(p: Progress, ok: bool)
    ensures var q := AfterSnapshot(p, ok);
            && Track(p, Event(Snapshot, ok)) == q && q.stopped == p.stopped && q.clean == p.clean
            && q.serving == p.serving
  {
  }

  function AfterRestoreState(p: Progress, ok: bool): Progress {
    p.(failure := First(p.failure, RestoreState, ok), touched := true, serving := None, clean := ok && p.stopped,
       stateRestored := p.stateRestored || ok, rollbackFailed := p.rollbackFailed || !ok)
  }

  lemma TrackRestoreState(p: Progress, ok: bool)
    ensures var q := AfterRestoreState(p, ok);
            && Track(p, Event(RestoreState, ok)) == q && q.stopped == p.stopped && q.clean == (ok && p.stopped)
            && q.serving == None
  {
  }

  function AfterReplace(p: Progress, ok: bool): Progress {
    p.(failure := First(p.failure, Replace, ok), touched := true, serving := None, stuck := p.stuck || (p.forward && !ok))
  }

  lemma TrackReplace(p: Progress, ok: bool)
    ensures var q := AfterReplace(p, ok);
            && Track(p, Event(Replace, ok)) == q && q.stopped == p.stopped && q.clean == p.clean
            && q.serving == None
  {
  }

  function AfterRestore(p: Progress, ok: bool): Progress {
    p.(failure := First(p.failure, Restore, ok), touched := true, serving := None,
       artifactsRestored := p.artifactsRestored || ok, rollbackFailed := p.rollbackFailed || !ok)
  }

  lemma TrackRestore(p: Progress, ok: bool)
    ensures var q := AfterRestore(p, ok);
            && Track(p, Event(Restore, ok)) == q && q.stopped == p.stopped && q.clean == p.clean
            && q.serving == None
  {
  }

  function AfterVerify(p: Progress, ok: bool): Progress {
    p.(failure := First(p.failure, Verify, ok), serving := if ok then Some(Candidate) else p.serving,
       loose := p.loose && !ok, stuck := p.stuck || (p.forward && !ok))
  }

  lemma TrackVerify(p: Progress, ok: bool)
    ensures var q := AfterVerify(p, ok);
            && Track(p, Event(Verify, ok)) == q && q.stopped == p.stopped && q.clean == p.clean
            && q.serving == if ok then Some(Candidate) else p.serving
  {
  }

  lemma TrackVerifyRollback(p: Progress, ok: bool)
    ensures var q := AfterVerifyRollback(p, ok);
            && Track(p, Event(VerifyRollback, ok)) == q && q.stopped == p.stopped && q.clean == p.clean
            && q.serving == if ok then Some(Previous) else p.serving
  {
  }

  function AfterGoForward(p: Progress): Progress {
    p.(forward := true, serving := None)
  }

  lemma TrackGoForward(p: Progress)
    ensures var q := AfterGoForward(p);
            && Track(p, Event(GoForward, true)) == q && q.stopped == p.stopped && q.clean == p.clean
            && q.serving == None
  {
  }

  lemma AlwaysAllowed(p: Progress, action: Action)
    requires action.Validate? || action.Verify? || action.VerifyRollback?
    ensures Allowed(p, action)
  {
  }

  function AfterStart(p: Progress, build: Artifacts, ok: bool): Progress {
    p.(failure := First(p.failure, Start(build), ok), stopped := false, serving := None, loose := true, stuck := p.stuck || (p.forward && !ok),
       clean := p.clean && build.Previous?, rollbackFailed := p.rollbackFailed || (build.Previous? && !ok))
  }

  function AfterVerifyRollback(p: Progress, ok: bool): Progress {
    p.(failure := First(p.failure, VerifyRollback, ok), serving := if ok then Some(Previous) else p.serving, loose := p.loose && !ok,
       previousProved := p.previousProved || ok, rollbackFailed := p.rollbackFailed || !ok)
  }

  lemma TrackStart(p: Progress, build: Artifacts, ok: bool)
    ensures Track(p, Event(Start(build), ok)) == AfterStart(p, build, ok)
  {
  }

  /** The gateway process, the installed files, the databases and the controller lock. */
  class Host {
    var running: Option<Artifacts>
    var installed: Artifacts
    var durable: Durable
    ghost var trace: seq<Event>
    ghost var progress: Progress

    constructor (running: Option<Artifacts>, installed: Artifacts)
      ensures Valid() && trace == [] && this.running == running && this.installed == installed
    {
      this.running, this.installed, durable := running, installed, Clean;
      trace, progress := [], NOTHING_DONE;
    }

    /** The run has been safe, and its summary is true of the machine. */
    ghost predicate Valid()
      reads this
    {
      && Safe(trace) && progress == Observe(trace)
      && (progress.stopped ==> running.None?)
      && (progress.clean ==> durable.Clean?)
      && (progress.serving.Some? ==> running == progress.serving && installed == progress.serving.value)
    }

    /** Adds an event to the history. */
    ghost method Note(event: Event)
      requires Safe(trace) && progress == Observe(trace) && Allowed(progress, event.action)
      modifies this`trace, this`progress
      ensures Safe(trace) && progress == Observe(trace)
      ensures trace == old(trace) + [event] && progress == Track(old(progress), event)
    {
      assert (trace + [event])[..|trace|] == trace;
      trace := trace + [event];
      progress := Track(progress, event);
    }

    method TryLock() returns (ok: bool)
      requires Valid()
      modifies this`trace, this`progress
      ensures Valid() && trace == old(trace) + [Event(AcquireLock, ok)] && progress == AfterAcquireLock(old(progress), ok)
    {
      hide Safe, Observe, Track, First, AfterAcquireLock;
      ok := *;
      TrackAcquireLock(progress, ok);
      Note(Event(AcquireLock, ok));
    }

    method Unlock()
      requires Valid()
      modifies this`trace, this`progress
      ensures Valid() && trace == old(trace) + [Event(ReleaseLock, true)] && progress == AfterReleaseLock(old(progress))
    {
      hide Safe, Observe, Track, First, AfterReleaseLock;
      TrackReleaseLock(progress);
      Note(Event(ReleaseLock, true));
    }

    /** A failed stop may or may not have ended the process. */
    method StopGateway() returns (ok: bool)
      requires Valid() && MayStop(progress)
      modifies this`running, this`trace, this`progress
      ensures Valid() && trace == old(trace) + [Event(Stop, ok)] && progress == AfterStop(old(progress), ok)
    {
      hide Safe, Observe, Track, First, AfterStop;
      ok := *;
      var ended: bool := *;
      if ok || ended {
        running := None;
      }
      TrackStop(progress, ok);
      Note(Event(Stop, ok));
    }

    /** A failed start may have left the process running. Whatever of the candidate ran may
        have changed the databases. */
    method StartGateway() returns (ok: bool)
      requires Valid() && MayStart(progress, installed)
      modifies this`running, this`durable, this`trace, this`progress
      ensures Valid() && trace == old(trace) + [Event(Start(installed), ok)] && progress == AfterStart(old(progress), installed, ok)
      ensures ok ==> running == Some(installed)
    {
      hide Safe, Observe, Track, First, Allowed;
      ok := *;
      var left: bool := *;
      var wrote: bool := *;
      if ok || left {
        running := Some(installed);
      }
      if wrote && !installed.Previous? {
        durable := Dirty;
      }
      TrackStart(progress, installed, ok);
      Note(Event(Start(installed), ok));
    }
  }

  // -------------------------------------------------------------- the recovery snapshot

  datatype ManifestPhase =
    | Prepared | StateSnapshotted | RestoringState | StateRestored
    | CandidateInstalling | CandidateInstalled | CandidateVerified
    | RestoringPreviousArtifacts | PreviousArtifactsRestored | PreviousVerified

  datatype Manifest = Manifest(phase: ManifestPhase, durableSnapshotAvailable: bool, durableStateRestored: bool)

  /** What a phase says about the files and the databases. */
  predicate Claim(phase: ManifestPhase, installed: Artifacts, durable: Durable) {
    match phase
    case CandidateInstalled => installed.Candidate?
    case CandidateVerified => installed.Candidate?
    case PreviousArtifactsRestored => installed.Previous?
    case PreviousVerified => installed.Previous?
    case StateRestored => durable.Clean?
    case _ => true
  }

  class RecoverySnapshot {
    const host: Host
    var manifest: Manifest
    // The manifest as it is on disk.
    var stored: Manifest
    // The copy of the databases is complete.
    var captured: bool
    var deleted: bool
    // The copies of the two builds are what their checksums say.
    const candidateIntact: bool
    const previousIntact: bool

    constructor (host: Host)
      ensures this.host == host && Truthful() && !deleted
    {
      this.host := host;
      manifest := Manifest(Prepared, false, false);
      stored := Manifest(Prepared, false, false);
      captured, deleted := false, false;
      candidateIntact, previousIntact := *, *;
    }

    /** A reader of the stored manifest, after a crash say, is not misled. */
    ghost predicate Truthful()
      reads this`manifest, this`stored, this`captured, host`installed, host`durable
    {
      && Claim(stored.phase, host.installed, host.durable)
      && (manifest.durableSnapshotAvailable || stored.durableSnapshotAvailable ==> captured)
    }

    /** The file is replaced whole; an error may come before or after. */
    method WriteManifest() returns (ok: bool)
      requires Truthful() && Claim(manifest.phase, host.installed, host.durable)
      modifies this`stored
      ensures Truthful() && (ok ==> stored == manifest)
    {
      ok := *;
      var replaced: bool := *;
      if ok || replaced {
        stored := manifest;
      }
    }

    method SnapshotDatabases() returns (ok: bool)
      modifies this`captured
      ensures ok ==> captured
      ensures old(captured) ==> captured
    {
      ok := *;
      captured := captured || ok;
    }

    /** Checksums, provenance and version of the candidate's copy. */
    method CheckCandidateCopy() returns (ok: bool)
      ensures ok ==> candidateIntact
    {
      ok := *;
      ok := ok && candidateIntact;
    }

    method CheckPreviousCopy() returns (ok: bool)
      ensures ok ==> previousIntact
    {
      ok := *;
      ok := ok && previousIntact;
    }

    /** Changing the databases and the files is announced in the manifest first. */
    method RestoreDatabases() returns (ok: bool)
      requires stored.phase.RestoringState? && captured
      modifies host`durable
      ensures ok ==> host.durable.Clean?
    {
      ok := *;
      if ok {
        host.durable := Clean;
      } else {
        host.durable := *;
      }
    }

    /** Only checked copies are ever installed. */
    method ReplaceAll() returns (ok: bool)
      requires stored.phase.CandidateInstalling? && candidateIntact && previousIntact
      modifies host`installed
      ensures ok ==> host.installed.Candidate?
    {
      ok := *;
      if ok {
        host.installed := Candidate;
      } else {
        host.installed := *;
      }
    }

    method RestoreAll() returns (ok: bool)
      requires stored.phase.RestoringPreviousArtifacts? && previousIntact
      modifies host`installed
      ensures ok ==> host.installed.Previous?
    {
      ok := *;
      if ok {
        host.installed := Previous;
      } else {
        host.installed := *;
      }
    }

    /** Compares the installed files with one of the two copies. */
    method VerifyInstalled(build: Artifacts) returns (ok: bool)
      requires (build.Candidate? ==> candidateIntact) && (build.Previous? ==> previousIntact)
      ensures ok ==> host.installed == build
    {
      ok := *;
      ok := ok && host.installed == build;
    }

    method CaptureDurableState() returns (ok: bool)
      requires Truthful()
      modifies this`manifest, this`stored, this`captured
      ensures Truthful() && (ok ==> captured && stored.durableSnapshotAvailable && stored.phase.StateSnapshotted?)
    {
      ok := SnapshotDatabases();
      if !ok {
        return;
      }
      manifest := manifest.(durableSnapshotAvailable := true, phase := StateSnapshotted);
      ok := WriteManifest();
    }

    method RestoreDurableState() returns (ok: bool)
      requires Truthful()
      modifies this`manifest, this`stored, host`durable
      ensures Truthful()
      ensures ok ==> host.durable.Clean? && stored.durableStateRestored && old(manifest.durableSnapshotAvailable)
      ensures !old(manifest.durableSnapshotAvailable) ==> host.durable == old(host.durable)
    {
      if !manifest.durableSnapshotAvailable {
        return false;
      }
      manifest := manifest.(phase := RestoringState);
      ok := WriteManifest();
      if !ok {
        return;
      }
      ok := RestoreDatabases();
      if !ok {
        return;
      }
      manifest := manifest.(durableStateRestored := true, phase := StateRestored);
      ok := WriteManifest();
    }

    method ReplaceCandidate() returns (ok: bool)
      requires Truthful()
      modifies this`manifest, this`stored, host`installed
      ensures Truthful() && (ok ==> host.installed.Candidate? && stored.phase.CandidateInstalled?)
    {
      ok := CheckCandidateCopy();
      if !ok {
        return;
      }
      manifest := manifest.(phase := CandidateInstalling);
      ok := WriteManifest();
      if !ok {
        return;
      }
      ok := CheckPreviousCopy();
      if !ok {
        return;
      }
      ok := ReplaceAll();
      if !ok {
        return;
      }
      manifest := manifest.(phase := CandidateInstalled);
      ok := WriteManifest();
    }

    method RestorePrevious() returns (ok: bool)
      requires Truthful()
      modifies this`manifest, this`stored, host`installed
      ensures Truthful() && (ok ==> host.installed.Previous? && stored.phase.PreviousArtifactsRestored?)
    {
      manifest := manifest.(phase := RestoringPreviousArtifacts);
      ok := WriteManifest();
      if !ok {
        return;
      }
      ok := CheckPreviousCopy();
      if !ok {
        return;
      }
      ok := RestoreAll();
      if !ok {
        return;
      }
      manifest := manifest.(phase := PreviousArtifactsRestored);
      ok := WriteManifest();
    }

    method VerifyCandidate() returns (ok: bool)
      requires Truthful()
      modifies this`manifest, this`stored
      ensures Truthful() && (ok ==> host.installed.Candidate? && stored.phase.CandidateVerified?)
    {
      ok := CheckCandidateCopy();
      if !ok {
        return;
      }
      ok := VerifyInstalled(Candidate);
      if !ok {
        return;
      }
      manifest := manifest.(phase := CandidateVerified);
      ok := WriteManifest();
    }

    method VerifyPrevious() returns (ok: bool)
      requires Truthful()
      modifies this`manifest, this`stored
      ensures Truthful() && (ok ==> host.installed.Previous? && stored.phase.PreviousVerified?)
    {
      ok := CheckPreviousCopy();
      if !ok {
        return;
      }
      ok := VerifyInstalled(Previous);
      if !ok {
        return;
      }
      manifest := manifest.(phase := PreviousVerified);
      ok := WriteManifest();
    }

    /** Deletes the snapshot; an error may leave some of it. */
    method CleanupSnapshot() returns (ok: bool)
      requires host.Valid() && MayCleanUp(host.progress)
      modifies this`deleted, host`trace, host`progress
      ensures host.Valid() && deleted && host.trace == old(host.trace) + [Event(Cleanup, ok)]
      ensures host.progress.loose == old(host.progress.loose)
    {
      ok := *;
      deleted := true;
      host.Note(Event(Cleanup, ok));
    }
  }

  // -------------------------------------------------------------- which events a run consists of

  /** The results of the steps of forward recovery; a step that is not reached has no influence. */
  datatype ForwardResults = ForwardResults(replaced: bool, started: bool, verified: bool, stopped: bool)

  /** The results of the steps of rolling back. */
  datatype RollbackResults = RollbackResults(stopped: bool, stateRestored: bool, artifactsRestored: bool, started: bool,
                                             verified: bool, stoppedAgain: bool, forward: ForwardResults)

  /** The results of the steps of an activation. */
  datatype Results = Results(locked: bool, validated: bool, stopped: bool, snapshotTaken: bool, replaced: bool,
                             started: bool, verified: bool, rollback: RollbackResults)

  const NO_RESULTS := Results(false, false, false, false, false, false, false, NO_ROLLBACK)

  const NO_ROLLBACK := RollbackResults(false, false, false, false, false, false, ForwardResults(false, false, false, false))

  /** Forward recovery after the events in trace. */
  function ForwardRun(trace: seq<Event>, r: ForwardResults): seq<Event> {
    var replaced := trace + [Event(GoForward, true)] + [Event(Replace, r.replaced)];
    if !r.replaced then replaced else
      var started := replaced + [Event(Start(Candidate), r.started)];
      var verified := if r.started then started + [Event(Verify, r.verified)] else started;
      if r.started && r.verified then verified else verified + [Event(Stop, r.stopped)]
  }

  /** Starting the previous build, or going forward, after its files are back. */
  function RestartRun(trace: seq<Event>, r: RollbackResults): seq<Event> {
    var started := trace + [Event(Start(Previous), r.started)];
    var verified := if r.started then started + [Event(VerifyRollback, r.verified)] else started;
    if r.started && r.verified then verified else
      var stopped := verified + [Event(Stop, r.stoppedAgain)];
      if !r.stoppedAgain then stopped else ForwardRun(stopped, r.forward)
  }

  /** Putting the previous files back and starting them. */
  function RestoreRun(trace: seq<Event>, r: RollbackResults): seq<Event> {
    var restored := trace + [Event(Restore, r.artifactsRestored)];
    if !r.artifactsRestored then ForwardRun(restored, r.forward) else RestartRun(restored, r)
  }

  function RollbackRun(trace: seq<Event>, candidateMayHaveRun: bool, r: RollbackResults): seq<Event> {
    var stopped := trace + [Event(Stop, r.stopped)];
    if !r.stopped then stopped
    else if !candidateMayHaveRun then RestoreRun(stopped, r)
    else
      var restored := stopped + [Event(RestoreState, r.stateRestored)];
      if !r.stateRestored then ForwardRun(restored, r.forward) else RestoreRun(restored, r)
  }

  /** Installing and starting the candidate, or rolling back. */
  function InstallRun(trace: seq<Event>, r: Results): seq<Event> {
    var replaced := trace + [Event(Replace, r.replaced)];
    if !r.replaced then RollbackRun(replaced, false, r.rollback) else
      var started := replaced + [Event(Start(Candidate), r.started)];
      if !r.started then RollbackRun(started, true, r.rollback) else
        var verified := started + [Event(Verify, r.verified)];
        if r.verified then verified else RollbackRun(verified, true, r.rollback)
  }

  function LockedRun(trace: seq<Event>, r: Results): seq<Event> {
    var validated := trace + [Event(Validate, r.validated)];
    if !r.validated then validated else
      var stopped := validated + [Event(Stop, r.stopped)];
      if !r.stopped then stopped else
        var snapshot := stopped + [Event(Snapshot, r.snapshotTaken)];
        if r.snapshotTaken then InstallRun(snapshot, r) else RollbackRun(snapshot, false, r.rollback)
  }

  /** The events of an activation whose callbacks have the given results. */
  function Run(r: Results): seq<Event> {
    var locked := [] + [Event(AcquireLock, r.locked)];
    if !r.locked then locked else LockedRun(locked, r) + [Event(ReleaseLock, true)]
  }

  // -------------------------------------------------------------- activating the gateway

  datatype FailurePhase =
    | NoFailure | ActivationConfiguration | ControllerLock | Preflight | GatewayStop | DurableSnapshotCapture
    | ArtifactReplacement | GatewayRestartReadiness | PostCutoverVerification

  datatype ForwardRecovery = NotAttempted | NotNeeded | PreviousRestored | ServingCandidate | Required

  datatype Outcome = Outcome(failurePhase: FailurePhase, durableSnapshotAvailable: bool, durableStateRestored: bool,
                             previousArtifactsRestored: bool, previousGatewayRestarted: bool, forwardRecovery: ForwardRecovery)

  const NO_OUTCOME := Outcome(NoFailure, false, false, false, false, NotAttempted)

  /** The failure phase names the first thing that failed. */
  function PhaseOf(failure: Option<Action>): FailurePhase {
    if failure.None? then NoFailure
    else match failure.value
      case AcquireLock => ControllerLock
      case Validate => Preflight
      case Stop => GatewayStop
      case Snapshot => DurableSnapshotCapture
      case Replace => ArtifactReplacement
      case Start(_) => GatewayRestartReadiness
      case _ => PostCutoverVerification
  }

  /** The recovery state names the build that is proved to serve, if any is. */
  function RecoveryOf(p: Progress): ForwardRecovery {
    if !p.snapshotTried then NotAttempted
    else match p.serving
      case None => Required
      case Some(Previous) => PreviousRestored
      case Some(Candidate) => if p.forward then ServingCandidate else NotNeeded
      case Some(Mixed) => Required
  }

  predicate ReportsSteps(o: Outcome, p: Progress) {
    && o.failurePhase == PhaseOf(p.failure)
    && (o.durableSnapshotAvailable <==> p.snapshotTaken)
    && (o.durableStateRestored <==> p.stateRestored)
    && (o.previousArtifactsRestored <==> p.artifactsRestored)
    && (o.previousGatewayRestarted <==> p.previousProved)
  }

  /** The outcome is true of the run, and the run has not given up early: recovery is only
      required if a stop failed or forward recovery did. */
  predicate Reports(o: Outcome, p: Progress) {
    ReportsSteps(o, p) && o.forwardRecovery == RecoveryOf(p) && (o.forwardRecovery.Required? ==> p.stuck)
  }

  /** How a run ends: its outcome is true of it, nothing is left running unproved, it has failed
      exactly if some step did, that is, unless forward recovery is not needed, and a previous
      build that serves again serves on clean databases. */
  predicate Concludes(o: Outcome, failed: bool, p: Progress) {
    && Reports(o, p) && !p.loose
    && (failed <==> p.failure.Some?) && (failed <==> !o.forwardRecovery.NotNeeded?)
    && (o.forwardRecovery.PreviousRestored? ==> p.clean)
    && (o.forwardRecovery.NotAttempted? ==> !p.touched)
  }

  /** An outcome that reports the steps concludes a run once its recovery state is right. */
  lemma RunConcludes(o: Outcome, p: Progress)
    requires ReportsSteps(o, p) && !p.loose && (RecoveryOf(p).Required? ==> p.stuck)
    requires p.failure.Some? <==> !RecoveryOf(p).NotNeeded?
    requires p.serving == Some(Previous) ==> p.clean
    requires !p.snapshotTried ==> !p.touched
    ensures Concludes(o.(forwardRecovery := RecoveryOf(p)), p.failure.Some?, p)
  {
  }

  /** What a reader of a truthful stored manifest may rely on. */
  lemma ManifestTells(recovery: RecoverySnapshot)
    requires recovery.Truthful()
    ensures recovery.stored.phase in {CandidateInstalled, CandidateVerified} ==> recovery.host.installed == Candidate
    ensures recovery.stored.phase in {PreviousArtifactsRestored, PreviousVerified} ==> recovery.host.installed == Previous
    ensures recovery.stored.phase == StateRestored ==> recovery.host.durable == Clean
    ensures recovery.stored.durableSnapshotAvailable ==> recovery.captured
  {
  }

  /** The callbacks of an activation. */
  class GatewayActivation {
    const host: Host
    const recovery: RecoverySnapshot
    const complete: bool
    const previousHealthy: bool

    constructor (recovery: RecoverySnapshot, complete: bool, previousHealthy: bool)
      requires recovery.host.Valid() && recovery.Truthful()
      ensures this.recovery == recovery && host == recovery.host && this.complete == complete && Ready()
    {
      this.host, this.recovery, this.complete, this.previousHealthy := recovery.host, recovery, complete, previousHealthy;
    }

    ghost predicate Ready()
      reads host, recovery
    {
      recovery.host == host && host.Valid() && recovery.Truthful()
    }

    /** Status, provenance and smoke checks: success implies that the running process is the
        installed gateway. */
    method CheckStatus() returns (ok: bool)
      ensures ok ==> host.running == Some(host.installed)
    {
      ok := *;
      ok := ok && host.running == Some(host.installed);
    }

    method Lock() returns (ok: bool)
      requires Ready()
      modifies host`trace, host`progress
      ensures Ready() && host.trace == old(host.trace) + [Event(AcquireLock, ok)]
      ensures host.progress == AfterAcquireLock(old(host.progress), ok)
    {
      hide Safe, Observe, Track, First;
      ok := host.TryLock();
    }

    method Unlock()
      requires Ready()
      modifies host`trace, host`progress
      ensures Ready() && host.trace == old(host.trace) + [Event(ReleaseLock, true)]
      ensures host.progress == AfterReleaseLock(old(host.progress))
    {
      hide Safe, Observe, Track, First;
      host.Unlock();
    }

    method ValidateBeforeStop() returns (ok: bool)
      requires Ready()
      modifies host`trace, host`progress, recovery`manifest, recovery`stored
      ensures Ready() && host.trace == old(host.trace) + [Event(Validate, ok)]
      ensures host.progress == AfterValidate(old(host.progress), ok)
      ensures ok ==> host.installed.Previous?
    {
      hide Safe, Observe, Track, First, Allowed, AfterValidate;
      ok := *;
      if ok {
        ok := recovery.VerifyPrevious();
      }
      TrackValidate(host.progress, ok);
      AlwaysAllowed(host.progress, Validate);
      host.Note(Event(Validate, ok));
    }

    method SnapshotState() returns (ok: bool)
      requires Ready() && MayTouch(host.progress)
      modifies host`trace, host`progress, recovery`manifest, recovery`stored, recovery`captured
      ensures Ready() && host.trace == old(host.trace) + [Event(Snapshot, ok)]
      ensures host.progress == AfterSnapshot(old(host.progress), ok)
    {
      hide Safe, Observe, Track, First, AfterSnapshot;
      ok := recovery.CaptureDurableState();
      TrackSnapshot(host.progress, ok);
      host.Note(Event(Snapshot, ok));
    }

    method RestoreDurable() returns (ok: bool)
      requires Ready() && MayRestore(host.progress)
      modifies host`durable, host`trace, host`progress, recovery`manifest, recovery`stored
      ensures Ready() && host.trace == old(host.trace) + [Event(RestoreState, ok)]
      ensures host.progress == AfterRestoreState(old(host.progress), ok)
    {
      hide Safe, Observe, Track, First, AfterRestoreState;
      ok := recovery.RestoreDurableState();
      TrackRestoreState(host.progress, ok);
      host.Note(Event(RestoreState, ok));
    }

    method ReplaceArtifacts() returns (ok: bool)
      requires Ready() && MayReplace(host.progress)
      modifies host`installed, host`trace, host`progress, recovery`manifest, recovery`stored
      ensures Ready() && host.trace == old(host.trace) + [Event(Replace, ok)]
      ensures host.progress == AfterReplace(old(host.progress), ok)
      ensures ok ==> host.installed.Candidate? && recovery.stored.phase.CandidateInstalled?
    {
      hide Safe, Observe, Track, First, AfterReplace;
      ok := recovery.ReplaceCandidate();
      TrackReplace(host.progress, ok);
      host.Note(Event(Replace, ok));
    }

    method RestoreArtifacts() returns (ok: bool)
      requires Ready() && MayRestore(host.progress)
      modifies host`installed, host`trace, host`progress, recovery`manifest, recovery`stored
      ensures Ready() && host.trace == old(host.trace) + [Event(Restore, ok)]
      ensures host.progress == AfterRestore(old(host.progress), ok)
      ensures ok ==> host.installed.Previous? && recovery.stored.phase.PreviousArtifactsRestored?
    {
      hide Safe, Observe, Track, First, AfterRestore;
      ok := recovery.RestorePrevious();
      TrackRestore(host.progress, ok);
      host.Note(Event(Restore, ok));
    }

    method VerifyServing() returns (ok: bool)
      requires Ready()
      modifies host`trace, host`progress, recovery`manifest, recovery`stored
      ensures Ready() && host.trace == old(host.trace) + [Event(Verify, ok)]
      ensures host.progress == AfterVerify(old(host.progress), ok)
    {
      hide Safe, Observe, Track, First, Allowed, AfterVerify;
      ok := recovery.VerifyCandidate();
      if ok {
        ok := CheckStatus();
      }
      TrackVerify(host.progress, ok);
      AlwaysAllowed(host.progress, Verify);
      host.Note(Event(Verify, ok));
    }

    method VerifyPreviousServing() returns (ok: bool)
      requires Ready()
      modifies host`trace, host`progress, recovery`manifest, recovery`stored
      ensures Ready() && host.trace == old(host.trace) + [Event(VerifyRollback, ok)]
      ensures host.progress == AfterVerifyRollback(old(host.progress), ok)
      ensures ok ==> previousHealthy
    {
      hide Safe, Observe, Track, First, Allowed, AfterVerifyRollback;
      ok := false;
      if previousHealthy {
        ok := recovery.VerifyPrevious();
        if ok {
          ok := CheckStatus();
        }
      }
      TrackVerifyRollback(host.progress, ok);
      AlwaysAllowed(host.progress, VerifyRollback);
      host.Note(Event(VerifyRollback, ok));
    }

    method Halt() returns (ok: bool)
      requires Ready() && MayStop(host.progress)
      modifies host`running, host`trace, host`progress
      ensures Ready() && host.trace == old(host.trace) + [Event(Stop, ok)]
      ensures host.progress == AfterStop(old(host.progress), ok)
    {
      hide Safe, Observe, Track, First;
      ok := host.StopGateway();
    }

    method BeginForward()
      requires Ready() && MayGoForward(host.progress)
      modifies host`trace, host`progress
      ensures Ready() && host.trace == old(host.trace) + [Event(GoForward, true)]
      ensures host.progress == AfterGoForward(old(host.progress))
    {
      hide Safe, Observe, Track, First, AfterGoForward;
      TrackGoForward(host.progress);
      host.Note(Event(GoForward, true));
    }

    /** Starts what is installed; the stored manifest stays true of the machine. */
    method Launch() returns (ok: bool)
      requires Ready() && MayStart(host.progress, host.installed) && !recovery.stored.phase.StateRestored?
      modifies host`running, host`durable, host`trace, host`progress
      ensures Ready() && host.trace == old(host.trace) + [Event(Start(host.installed), ok)]
      ensures host.progress == AfterStart(old(host.progress), host.installed, ok)
    {
      hide Safe, Observe, Track, First;
      ok := host.StartGateway();
    }
  }

  /** Installs and starts the candidate after rolling back has failed. */
  method RecoverForward(activation: GatewayActivation, given: Outcome)
    returns (outcome: Outcome, ghost results: ForwardResults)
    requires activation.Ready() && MayGoForward(activation.host.progress)
    requires activation.host.progress.failure.Some? && activation.host.progress.snapshotTried && activation.host.progress.validated
    requires !activation.host.progress.loose
    requires ReportsSteps(given, activation.host.progress)
    modifies activation.host, activation.recovery`manifest, activation.recovery`stored
    ensures activation.Ready() && activation.host.progress.held && Concludes(outcome, true, activation.host.progress)
    ensures outcome.forwardRecovery.Required? || outcome.forwardRecovery.ServingCandidate?
    ensures activation.host.trace == ForwardRun(old(activation.host.trace), results)
  {
    hide Safe, Observe, Track, First, PhaseOf, Claim, GatewayActivation.Ready, Host.Valid, RecoverySnapshot.Truthful, Concludes;
    activation.BeginForward();
    outcome := given.(forwardRecovery := Required);
    var ok := activation.ReplaceArtifacts();
    results := ForwardResults(ok, false, false, false);
    if !ok {
      RunConcludes(outcome, activation.host.progress);
      return;
    }
    ok := activation.Launch();
    results := results.(started := ok);
    if ok {
      ok := activation.VerifyServing();
      results := results.(verified := ok);
    }
    if !ok {
      var stopped := activation.Halt();
      results := results.(stopped := stopped);
      RunConcludes(outcome, activation.host.progress);
      return;
    }
    RunConcludes(outcome, activation.host.progress);
    outcome := outcome.(forwardRecovery := ServingCandidate);
  }

  /** Nothing has been rolled back yet. */
  predicate BeforeRollback(p: Progress) {
    && p.held && p.validated && !p.forward && p.failure.Some? && p.snapshotTried
    && !p.stateRestored && !p.artifactsRestored && !p.previousProved
  }

  predicate MayRollBack(p: Progress, o: Outcome, candidateMayHaveRun: bool) {
    BeforeRollback(p) && ReportsSteps(o, p) && (candidateMayHaveRun || p.clean)
  }

  /** Restores the databases if the candidate may have run, then the files, then starts the
      previous build; or goes forward. */
  method Rollback(activation: GatewayActivation, given: Outcome, candidateMayHaveRun: bool)
    returns (outcome: Outcome, ghost results: RollbackResults)
    requires activation.Ready() && MayRollBack(activation.host.progress, given, candidateMayHaveRun)
    modifies activation.host, activation.recovery`manifest, activation.recovery`stored
    ensures activation.Ready() && activation.host.progress.held && Concludes(outcome, true, activation.host.progress)
    ensures !outcome.forwardRecovery.NotAttempted?
    ensures activation.host.trace == RollbackRun(old(activation.host.trace), candidateMayHaveRun, results)
  {
    hide Safe, Observe, Track, First, PhaseOf, Claim, GatewayActivation.Ready, Host.Valid, RecoverySnapshot.Truthful, ForwardRun, Concludes;
    outcome := given;
    var ok := activation.Halt();
    results := NO_ROLLBACK.(stopped := ok);
    if !ok {
      RunConcludes(outcome, activation.host.progress);
      outcome := outcome.(forwardRecovery := Required);
      return;
    }
    if candidateMayHaveRun {
      ok := activation.RestoreDurable();
      results := results.(stateRestored := ok);
      if !ok {
        ghost var forward;
        outcome, forward := RecoverForward(activation, outcome);
        results := results.(forward := forward);
        return;
      }
      outcome := outcome.(durableStateRestored := true);
    }
    ok := activation.RestoreArtifacts();
    results := results.(artifactsRestored := ok);
    if !ok {
      ghost var forward;
      outcome, forward := RecoverForward(activation, outcome);
      results := results.(forward := forward);
      return;
    }
    outcome := outcome.(previousArtifactsRestored := true);
    ok := activation.Launch();
    results := results.(started := ok);
    if ok {
      ok := activation.VerifyPreviousServing();
      results := results.(verified := ok);
    }
    if ok {
      outcome := outcome.(previousGatewayRestarted := true);
      RunConcludes(outcome, activation.host.progress);
      outcome := outcome.(forwardRecovery := PreviousRestored);
      return;
    }
    ok := activation.Halt();
    results := results.(stoppedAgain := ok);
    if !ok {
      RunConcludes(outcome, activation.host.progress);
      outcome := outcome.(forwardRecovery := Required);
      return;
    }
    ghost var forward;
    outcome, forward := RecoverForward(activation, outcome);
    results := results.(forward := forward);
  }

  /** The gateway is stopped, the snapshot taken, and nothing has failed. */
  predicate BeforeInstall(p: Progress) {
    && MayReplace(p) && p.validated && p.clean && !p.forward && p.failure.None? && p.snapshotTried && p.snapshotTaken
    && !p.stateRestored && !p.artifactsRestored && !p.previousProved
  }

  /** What each step of the installation leads to. */
  lemma InstallSteps(p: Progress, o: Outcome)
    requires BeforeInstall(p) && o == NO_OUTCOME.(durableSnapshotAvailable := true)
    ensures MayReplace(p)
    ensures MayRollBack(AfterReplace(p, false), o.(failurePhase := ArtifactReplacement), false)
    ensures BeforeStart(AfterReplace(p, true))
  {
    hide Safe;
  }

  /** The candidate is installed. */
  predicate BeforeStart(p: Progress) {
    && MayStart(p, Candidate) && p.validated && !p.forward && p.failure.None? && p.snapshotTried && p.snapshotTaken
    && !p.stateRestored && !p.artifactsRestored && !p.previousProved
  }

  lemma StartSteps(p: Progress, o: Outcome)
    requires BeforeStart(p) && o == NO_OUTCOME.(durableSnapshotAvailable := true)
    ensures MayStart(p, Candidate)
    ensures MayRollBack(AfterStart(p, Candidate, false), o.(failurePhase := GatewayRestartReadiness), true)
    ensures MayRollBack(AfterVerify(AfterStart(p, Candidate, true), false), o.(failurePhase := PostCutoverVerification), true)
    ensures var q := AfterVerify(AfterStart(p, Candidate, true), true);
            q.held && Concludes(o.(forwardRecovery := NotNeeded), false, q)
  {
    hide Safe;
  }

  /** Installs, starts and proves the candidate; each failure is rolled back. */
  method InstallCandidate(activation: GatewayActivation, given: Outcome, ghost begun: Results)
    returns (outcome: Outcome, failed: bool, ghost results: Results)
    requires activation.Ready() && BeforeInstall(activation.host.progress)
    requires given == NO_OUTCOME.(durableSnapshotAvailable := true)
    modifies activation.host, activation.recovery`manifest, activation.recovery`stored
    ensures activation.Ready() && activation.host.progress.held && Concludes(outcome, failed, activation.host.progress)
    ensures results == begun.(replaced := results.replaced, started := results.started, verified := results.verified,
                              rollback := results.rollback)
    ensures activation.host.trace == InstallRun(old(activation.host.trace), results)
  {
    hide Safe, Observe, Track, First, PhaseOf, Claim, GatewayActivation.Ready, Host.Valid, RecoverySnapshot.Truthful, RollbackRun, Concludes;
    hide AfterReplace, AfterStart, AfterVerify, BeforeInstall, BeforeStart, MayRollBack, MayReplace, MayStart;
    InstallSteps(activation.host.progress, given);
    outcome := given;
    var ok := activation.ReplaceArtifacts();
    results := begun.(replaced := ok);
    if !ok {
      ghost var rollback;
      outcome, rollback := Rollback(activation, outcome.(failurePhase := ArtifactReplacement), false);
      return outcome, true, results.(rollback := rollback);
    }
    StartSteps(activation.host.progress, given);
    ok := activation.Launch();
    results := results.(started := ok);
    if !ok {
      ghost var rollback;
      outcome, rollback := Rollback(activation, outcome.(failurePhase := GatewayRestartReadiness), true);
      return outcome, true, results.(rollback := rollback);
    }
    ok := activation.VerifyServing();
    results := results.(verified := ok);
    if !ok {
      ghost var rollback;
      outcome, rollback := Rollback(activation, outcome.(failurePhase := PostCutoverVerification), true);
      return outcome, true, results.(rollback := rollback);
    }
    return outcome.(forwardRecovery := NotNeeded), false, results;
  }

  /** The part of an activation that runs under the controller lock. */
  method ActivateLocked(activation: GatewayActivation) returns (outcome: Outcome, failed: bool, ghost results: Results)
    requires activation.Ready() && activation.host.progress == NOTHING_DONE.(held := true)
    modifies activation.host, activation.recovery`manifest, activation.recovery`stored, activation.recovery`captured
    ensures activation.Ready() && activation.host.progress.held && Concludes(outcome, failed, activation.host.progress)
    ensures results.locked && activation.host.trace == LockedRun(old(activation.host.trace), results)
  {
    hide Safe, Observe, Track, Claim, GatewayActivation.Ready, Host.Valid, RecoverySnapshot.Truthful, RollbackRun, InstallRun, Concludes;
    outcome := NO_OUTCOME;
    var ok := activation.ValidateBeforeStop();
    results := NO_RESULTS.(locked := true, validated := ok);
    if !ok {
      outcome := outcome.(failurePhase := Preflight);
      RunConcludes(outcome, activation.host.progress);
      return outcome, true, results;
    }
    ok := activation.Halt();
    results := results.(stopped := ok);
    if !ok {
      outcome := outcome.(failurePhase := GatewayStop);
      RunConcludes(outcome, activation.host.progress);
      return outcome, true, results;
    }
    ok := activation.SnapshotState();
    results := results.(snapshotTaken := ok);
    if !ok {
      ghost var rollback;
      outcome, rollback := Rollback(activation, outcome.(failurePhase := DurableSnapshotCapture), false);
      return outcome, true, results.(rollback := rollback);
    }
    outcome := outcome.(durableSnapshotAvailable := true);
    outcome, failed, results := InstallCandidate(activation, outcome, results);
  }

  /** A gateway-only activation. Whatever fails, the run is safe, the outcome says what failed
      first and which build is proved to serve, and there is no error exactly when forward
      recovery is not needed. */
  method ActivateGateway(activation: GatewayActivation) returns (outcome: Outcome, failed: bool, ghost results: Results)
    requires activation.Ready() && activation.host.trace == [] && activation.host.progress == NOTHING_DONE
    modifies activation.host, activation.recovery`manifest, activation.recovery`stored, activation.recovery`captured
    ensures activation.Ready() && !activation.host.progress.held
    ensures if activation.complete
            then activation.host.trace == Run(results) && Concludes(outcome, failed, activation.host.progress)
            else activation.host.trace == [] && failed && outcome == NO_OUTCOME.(failurePhase := ActivationConfiguration)
  {
    hide Safe, Observe, Track, Claim, GatewayActivation.Ready, Host.Valid, RecoverySnapshot.Truthful, LockedRun;
    outcome, results := NO_OUTCOME, NO_RESULTS;
    if !activation.complete {
      return outcome.(failurePhase := ActivationConfiguration), true, results;
    }
    var ok := activation.Lock();
    if !ok {
      return outcome.(failurePhase := ControllerLock), true, results;
    }
    outcome, failed, results := ActivateLocked(activation);
    activation.Unlock();
  }

  // -------------------------------------------------------------- self-activation

  datatype ActivationResult = Activated | PreflightFailed | ActivationFailed(outcome: Outcome, retained: bool) | CleanupFailed

  /** Source checks, health probes, the build and its smoke test, and the copies in the
      recovery snapshot: none of it touches the machine. */
  method PrepareCutover(host: Host) returns (recovery: RecoverySnapshot?, previousHealthy: bool)
    requires host.Valid()
    ensures recovery != null ==> fresh(recovery) && recovery.host == host && recovery.Truthful() && !recovery.deleted
  {
    recovery := null;
    previousHealthy := *;
    var prepared: bool := *;
    if prepared {
      recovery := new RecoverySnapshot(host);
    }
  }

  /** A failure is a preflight failure exactly when nothing at all was done to the machine.
      The recovery snapshot survives exactly while it may still be needed. */
  method SelfActivate(host: Host) returns (result: ActivationResult, recovery: RecoverySnapshot?)
    requires host.Valid() && host.trace == []
    modifies host
    ensures host.Valid() && !host.progress.loose
    ensures result.PreflightFailed? <==> host.trace == []
    ensures result.PreflightFailed? ==> host.running == old(host.running) && host.installed == old(host.installed) && host.durable == old(host.durable)
    ensures !result.PreflightFailed? ==> recovery != null && recovery.host == host && recovery.Truthful()
    ensures result.Activated? ==> host.running == Some(Candidate) && host.installed == Candidate && recovery.deleted
    ensures result.CleanupFailed? ==> host.running == Some(Candidate) && host.installed == Candidate
    ensures result.ActivationFailed? ==>
              && (result.retained <==> !recovery.deleted)
              && (result.retained <==> result.outcome.forwardRecovery.Required? || result.outcome.forwardRecovery.ServingCandidate?)
              && (result.outcome.forwardRecovery.ServingCandidate? ==> host.running == Some(Candidate) && host.installed == Candidate)
              && (result.outcome.forwardRecovery.PreviousRestored? ==> host.running == Some(Previous) && host.installed == Previous && host.durable == Clean)
  {
    hide Safe, Observe, Track, First, PhaseOf, Claim, ReportsSteps;
    NothingObserved();
    var previousHealthy;
    recovery, previousHealthy := PrepareCutover(host);
    if recovery == null {
      return PreflightFailed, null;
    }
    var activation := new GatewayActivation(recovery, true, previousHealthy);
    var outcome, failed;
    ghost var results;
    outcome, failed, results := ActivateGateway(activation);
    if failed {
      if outcome.forwardRecovery.Required? || outcome.forwardRecovery.ServingCandidate? {
        return ActivationFailed(outcome, true), recovery;
      }
      var cleaned := recovery.CleanupSnapshot();
      return ActivationFailed(outcome, false), recovery;
    }
    var cleaned := recovery.CleanupSnapshot();
    if !cleaned {
      return CleanupFailed, recovery;
    }
    return Activated, recovery;
  }
}
