/** The receipt of a gateway recovery: any number of acceptors, rescheduled workers and takeovers. */
module RecoveryReceipt {
  import opened Json

  datatype RecoveryOutcome = Accepted | InProgress | Succeeded | Failed

  datatype Receipt = Receipt(outcome: RecoveryOutcome, error: string)

  predicate Open(receipt: Receipt) {
    receipt.outcome.Accepted? || receipt.outcome.InProgress?
  }

  /** There is no receipt, or one that a worker may still act on. */
  predicate Actionable(receipt: Option<Receipt>) {
    receipt.Some? ==> Open(receipt.value)
  }

  predicate IsOpen(receipt: Option<Receipt>) {
    receipt.Some? && Open(receipt.value)
  }

  // -------------------------------------------------------------- the state

  /** Where a process is. An acceptor arrives, looks without the lock, looks again with it (or
      after finding it taken), writes the acceptance, lets go of the lock and launches a worker.
      A worker takes the lock, reads, marks the receipt, hands the gateway over and finishes. */
  datatype Phase =
    | Arrived
    | Checked
    | Refused
    | Holding
    | Admitting
    | Admitted
    | Scheduled
    | Unlaunched(error: string)
    | Recording(error: string)
    | Failing(error: string)
    | Spawned
    | Starting
    | Marking(from: Option<Receipt>)
    | Marked(from: Option<Receipt>)
    | HandingOver(from: Option<Receipt>)
    | Finishing(next: Receipt)
    | Ended

  datatype Holder = Process(id: nat) | Outsider

  /** The receipt of one operation, the controller lock, every process ever started for it,
      for each hand-over the receipt it began from, the failures of the hand-overs that ended,
      and the errors met outside them: launches and copies of the running gateway that failed. */
  datatype World = World(receipt: Option<Receipt>, lock: Option<Holder>, processes: seq<Phase>, handovers: seq<Option<Receipt>>,
                         ends: seq<Option<string>>, faults: set<string>)

  predicate HoldsLock(phase: Phase) {
    || phase.Holding? || phase.Admitting? || phase.Admitted? || phase.Recording? || phase.Failing?
    || phase.Starting? || phase.Marking? || phase.Marked? || phase.HandingOver? || phase.Finishing?
  }

  // -------------------------------------------------------------- the steps

  datatype Step =
    | Arrive
    | LookUnlocked(p: nat)
    | TryLock(p: nat)
    | LookLocked(p: nat)
    | Write(p: nat)
    | WriteFails(p: nat)
    | Unlock(p: nat)
    | Launch(p: nat)
    | LaunchFails(p: nat, error: string)
    | CopyFails(p: nat, error: string)
    | StopGateway(p: nat)
    | HandoverEnds(p: nat, failure: Option<string>)
    | Crash(p: nat)
    | OutsiderLocks
    | OutsiderUnlocks

  predicate At(w: World, p: nat) {
    p < |w.processes|
  }

  predicate Writes(phase: Phase) {
    phase.Admitting? || phase.Marking? || phase.Failing? || phase.Finishing?
  }

  predicate Enabled(w: World, step: Step) {
    match step
    case Arrive => true
    case LookUnlocked(p) => At(w, p) && (w.processes[p].Arrived? || w.processes[p].Refused?)
    case TryLock(p) => At(w, p) && (w.processes[p].Checked? || w.processes[p].Unlaunched? || w.processes[p].Spawned?)
    case LookLocked(p) => At(w, p) && (w.processes[p].Holding? || w.processes[p].Recording? || w.processes[p].Starting?)
    case Write(p) => At(w, p) && Writes(w.processes[p])
    case WriteFails(p) => At(w, p) && Writes(w.processes[p])
    case Unlock(p) => At(w, p) && w.processes[p].Admitted?
    case Launch(p) => At(w, p) && w.processes[p].Scheduled?
    case LaunchFails(p, _) => At(w, p) && w.processes[p].Scheduled?
    case CopyFails(p, _) => At(w, p) && w.processes[p].Marked?
    case StopGateway(p) => At(w, p) && w.processes[p].Marked?
    case HandoverEnds(p, _) => At(w, p) && w.processes[p].HandingOver?
    case Crash(p) => At(w, p)
    case OutsiderLocks => w.lock.None?
    case OutsiderUnlocks => w.lock == Some(Outsider)
  }

  function Become(w: World, p: nat, phase: Phase): World
    requires p < |w.processes|
  {
    w.(processes := w.processes[p := phase])
  }

  /** Moves on without the lock; the system gives it back if the process held it. */
  function Release(w: World, p: nat, phase: Phase): World
    requires p < |w.processes|
  {
    Become(w, p, phase).(lock := if w.lock == Some(Process(p)) then None else w.lock)
  }

  function LookedUnlocked(w: World, p: nat): Phase
    requires p < |w.processes|
  {
    match w.receipt
    case None => if w.processes[p].Arrived? then Checked else Ended
    case Some(receipt) => if Open(receipt) then Scheduled else Ended
  }

  function LookedLocked(w: World, p: nat): World
    requires p < |w.processes|
  {
    match w.processes[p]
    case Holding =>
      if w.receipt.None? then Become(w, p, Admitting)
      else Release(w, p, if Open(w.receipt.value) then Scheduled else Ended)
    case Recording(error) => if IsOpen(w.receipt) then Become(w, p, Failing(error)) else Release(w, p, Ended)
    // A worker that has died left the lock behind: taking it is how another takes over.
    case _ => if Actionable(w.receipt) then Become(w, p, Marking(w.receipt)) else Release(w, p, Ended)
  }

  function Written(w: World, p: nat): World
    requires p < |w.processes|
  {
    match w.processes[p]
    case Admitting => Become(w, p, Admitted).(receipt := Some(Receipt(Accepted, "")))
    case Marking(from) => Become(w, p, Marked(from)).(receipt := Some(Receipt(InProgress, "")))
    case Failing(error) => Release(w, p, Ended).(receipt := if w.receipt.Some? then Some(Receipt(Failed, error)) else None)
    case Finishing(next) => Release(w, p, Ended).(receipt := Some(next))
    case _ => w
  }

  const NOT_PERSISTED := "persist gateway recovery result"

  function After(w: World, step: Step): World
    requires Enabled(w, step)
  {
    match step
    case Arrive => w.(processes := w.processes + [Arrived])
    case LookUnlocked(p) => Become(w, p, LookedUnlocked(w, p))
    case TryLock(p) =>
      if w.lock.Some? then Become(w, p, if w.processes[p].Checked? then Refused else Ended)
      else
        Become(w, p, match w.processes[p]
                     case Checked => Holding
                     case Unlaunched(error) => Recording(error)
                     case _ => Starting).(lock := Some(Process(p)))
    case LookLocked(p) => LookedLocked(w, p)
    case Write(p) => Written(w, p)
    // A success that cannot be written is written as a failure instead.
    case WriteFails(p) =>
      if w.processes[p].Finishing? && w.processes[p].next.outcome.Succeeded?
      then Become(w, p, Finishing(Receipt(Failed, NOT_PERSISTED))) else Release(w, p, Ended)
    case Unlock(p) => Release(w, p, Scheduled)
    case Launch(p) => var w' := Become(w, p, Ended); w'.(processes := w'.processes + [Spawned])
    case LaunchFails(p, error) => Become(w, p, Unlaunched(error)).(faults := w.faults + {error})
    case CopyFails(p, error) => Become(w, p, Finishing(Receipt(Failed, error))).(faults := w.faults + {error})
    case StopGateway(p) =>
      var from := w.processes[p].from;
      Become(w, p, HandingOver(from)).(handovers := w.handovers + [from])
    case HandoverEnds(p, failure) =>
      Become(w, p, Finishing(match failure case None => Receipt(Succeeded, "") case Some(error) => Receipt(Failed, error)))
      .(ends := w.ends + [failure])
    case Crash(p) => Release(w, p, Ended)
    case OutsiderLocks => w.(lock := Some(Outsider))
    case OutsiderUnlocks => w.(lock := None)
  }

  predicate Initial(w: World) {
    w.receipt.None? && w.lock.None? && w.processes == [] && w.handovers == [] && w.ends == [] && w.faults == {}
  }

  ghost predicate Goes(w: World, w': World) {
    exists step :: Enabled(w, step) && w' == After(w, step)
  }

  ghost predicate Behaviour(ws: seq<World>) {
    ws != [] && Initial(ws[0]) && forall i | 0 < i < |ws| :: Goes(ws[i - 1], ws[i])
  }

  // -------------------------------------------------------------- what every step keeps

  /** Whoever holds the lock knows what the receipt is; nobody else knows anything. */
  predicate PhaseOk(receipt: Option<Receipt>, lock: Option<Holder>, p: nat, phase: Phase) {
    && (HoldsLock(phase) ==> lock == Some(Process(p)))
    && match phase
       case Admitting => receipt.None?
       case Failing(_) => IsOpen(receipt)
       case Marking(from) => receipt == from && Actionable(from)
       case Marked(from) => receipt == Some(Receipt(InProgress, "")) && Actionable(from)
       case HandingOver(from) => receipt == Some(Receipt(InProgress, "")) && Actionable(from)
       case Finishing(next) => receipt == Some(Receipt(InProgress, "")) && !Open(next)
       case _ => true
  }

  predicate PhasesOk(w: World) {
    forall p | 0 <= p < |w.processes| :: PhaseOk(w.receipt, w.lock, p, w.processes[p])
  }

  predicate AllActionable(handovers: seq<Option<Receipt>>) {
    forall k | 0 <= k < |handovers| :: Actionable(handovers[k])
  }

  predicate Invariant(w: World) {
    PhasesOk(w) && AllActionable(w.handovers)
  }

  /** A finished receipt stays as it is, and nothing is handed over under it. */
  predicate Follows(w: World, w': World) {
    && w.handovers <= w'.handovers
    && (w.receipt.Some? ==> w'.receipt.Some?)
    && (!Actionable(w.receipt) ==> w'.receipt == w.receipt && w'.handovers == w.handovers)
  }

  /** Process p moves; if it writes, it holds the lock. */
  predicate Moves(w: World, w': World, p: nat) {
    && |w.processes| <= |w'.processes|
    && (forall q | 0 <= q < |w.processes| && q != p :: w'.processes[q] == w.processes[q])
    && (w'.lock == w.lock || w.lock.None? || w.lock == Some(Process(p)) || w.lock == Some(Outsider))
    && (w'.receipt == w.receipt || w.lock == Some(Process(p)))
  }

  lemma OthersKeep(w: World, w': World, p: nat)
    requires PhasesOk(w) && Moves(w, w', p)
    ensures forall q | 0 <= q < |w.processes| && q != p :: PhaseOk(w'.receipt, w'.lock, q, w'.processes[q])
  {
    forall q | 0 <= q < |w.processes| && q != p
      ensures PhaseOk(w'.receipt, w'.lock, q, w'.processes[q])
    {
      assert PhaseOk(w.receipt, w.lock, q, w.processes[q]);
    }
  }

  lemma AcceptorKeeps(w: World, step: Step)
    requires Invariant(w) && Enabled(w, step)
    requires step.LookUnlocked? || step.LookLocked? || step.TryLock? || step.Unlock? || step.LaunchFails?
    ensures Invariant(After(w, step)) && Follows(w, After(w, step))
  {
    assert PhaseOk(w.receipt, w.lock, step.p, w.processes[step.p]);
    OthersKeep(w, After(w, step), step.p);
  }

  lemma WriteKeeps(w: World, p: nat)
    requires Invariant(w) && Enabled(w, Write(p))
    ensures Invariant(After(w, Write(p))) && Follows(w, After(w, Write(p)))
  {
    assert PhaseOk(w.receipt, w.lock, p, w.processes[p]);
    OthersKeep(w, After(w, Write(p)), p);
  }

  lemma WorkerKeeps(w: World, step: Step)
    requires Invariant(w) && Enabled(w, step)
    requires step.WriteFails? || step.CopyFails? || step.StopGateway? || step.HandoverEnds? || step.Crash?
    ensures Invariant(After(w, step)) && Follows(w, After(w, step))
  {
    assert PhaseOk(w.receipt, w.lock, step.p, w.processes[step.p]);
    OthersKeep(w, After(w, step), step.p);
  }

  lemma StartKeeps(w: World, step: Step)
    requires Invariant(w) && Enabled(w, step) && (step.Arrive? || step.Launch? || step.OutsiderLocks? || step.OutsiderUnlocks?)
    ensures Invariant(After(w, step)) && Follows(w, After(w, step))
  {
    OthersKeep(w, After(w, step), if step.Launch? then step.p else |w.processes|);
  }

  lemma EveryStepKeeps(w: World, step: Step)
    requires Invariant(w) && Enabled(w, step)
    ensures Invariant(After(w, step)) && Follows(w, After(w, step))
  {
    hide Invariant, Follows;
    match step
    case Arrive => StartKeeps(w, step);
    case Launch(_) => StartKeeps(w, step);
    case OutsiderLocks => StartKeeps(w, step);
    case OutsiderUnlocks => StartKeeps(w, step);
    case LookUnlocked(_) => AcceptorKeeps(w, step);
    case LookLocked(_) => AcceptorKeeps(w, step);
    case TryLock(_) => AcceptorKeeps(w, step);
    case Unlock(_) => AcceptorKeeps(w, step);
    case LaunchFails(_, _) => AcceptorKeeps(w, step);
    case Write(p) => WriteKeeps(w, p);
    case WriteFails(_) => WorkerKeeps(w, step);
    case CopyFails(_, _) => WorkerKeeps(w, step);
    case StopGateway(_) => WorkerKeeps(w, step);
    case HandoverEnds(_, _) => WorkerKeeps(w, step);
    case Crash(_) => WorkerKeeps(w, step);
  }

  // -------------------------------------------------------------- what every behaviour keeps

  lemma {:induction false} AlwaysInvariant(ws: seq<World>, i: nat)
    requires Behaviour(ws) && i < |ws|
    ensures Invariant(ws[i])
    decreases i
  {
    hide Enabled;
    if i > 0 {
      hide Invariant;
      AlwaysInvariant(ws, i - 1);
      assert Goes(ws[i - 1], ws[i]);
      var step :| Enabled(ws[i - 1], step) && ws[i] == After(ws[i - 1], step);
      EveryStepKeeps(ws[i - 1], step);
    }
  }

  lemma {:induction false} AlwaysFollows(ws: seq<World>, i: nat, j: nat)
    requires Behaviour(ws) && i <= j < |ws|
    ensures Follows(ws[i], ws[j])
    decreases j
  {
    hide Enabled, Invariant;
    if i < j {
      AlwaysFollows(ws, i, j - 1);
      AlwaysInvariant(ws, j - 1);
      assert Goes(ws[j - 1], ws[j]);
      var step :| Enabled(ws[j - 1], step) && ws[j] == After(ws[j - 1], step);
      EveryStepKeeps(ws[j - 1], step);
    }
  }

  /** A stored success or failure never changes, and from then on the gateway is not stopped
      or started again for this operation. */
  lemma TerminalOutcomesStay(ws: seq<World>, i: nat, j: nat)
    requires Behaviour(ws) && i <= j < |ws| && ws[i].receipt.Some? && !Open(ws[i].receipt.value)
    ensures ws[j].receipt == ws[i].receipt && ws[j].handovers == ws[i].handovers
    ensures forall p | 0 <= p < |ws[j].processes| :: !ws[j].processes[p].Marked? && !ws[j].processes[p].HandingOver?
  {
    hide Behaviour;
    AlwaysFollows(ws, i, j);
    AlwaysInvariant(ws, j);
    forall p | 0 <= p < |ws[j].processes|
      ensures !ws[j].processes[p].Marked? && !ws[j].processes[p].HandingOver?
    {
      assert PhaseOk(ws[j].receipt, ws[j].lock, p, ws[j].processes[p]);
    }
  }

  /** Every hand-over begins under the controller lock, with the receipt marked in progress,
      by a worker that had read no receipt or an unfinished one; and it is the only one. */
  lemma HandoversBeginProperly(ws: seq<World>, i: nat, p: nat)
    requires Behaviour(ws) && i < |ws| && Enabled(ws[i], StopGateway(p))
    ensures ws[i].lock == Some(Process(p)) && ws[i].receipt == Some(Receipt(InProgress, ""))
    ensures Actionable(ws[i].processes[p].from)
    ensures After(ws[i], StopGateway(p)).handovers == ws[i].handovers + [ws[i].processes[p].from]
    ensures forall q | 0 <= q < |ws[i].processes| && q != p :: !HoldsLock(ws[i].processes[q])
  {
    hide Behaviour;
    AlwaysInvariant(ws, i);
    assert PhaseOk(ws[i].receipt, ws[i].lock, p, ws[i].processes[p]);
    forall q | 0 <= q < |ws[i].processes| && q != p
      ensures !HoldsLock(ws[i].processes[q])
    {
      assert PhaseOk(ws[i].receipt, ws[i].lock, q, ws[i].processes[q]);
    }
  }

  /** All hand-overs of a run began from no receipt or an unfinished one. */
  lemma HandoversWereActionable(ws: seq<World>, i: nat)
    requires Behaviour(ws) && i < |ws|
    ensures AllActionable(ws[i].handovers)
  {
    hide Behaviour, PhasesOk;
    AlwaysInvariant(ws, i);
  }

  // -------------------------------------------------------------- what a receipt tells

  /** The last hand-over ended so. */
  predicate LastEnded(ends: seq<Option<string>>, failure: Option<string>) {
    ends != [] && ends[|ends| - 1] == failure
  }

  /** A success is that of the last hand-over. A failure carries the error of a launch, of
      copying the running gateway or of the last hand-over, or says that its success could not
      be written. */
  predicate Tells(r: Receipt, ends: seq<Option<string>>, faults: set<string>) {
    match r.outcome
    case Succeeded => LastEnded(ends, None)
    case Failed => r.error in faults || LastEnded(ends, Some(r.error)) || (r.error == NOT_PERSISTED && LastEnded(ends, None))
    case _ => true
  }

  predicate PhaseTold(ends: seq<Option<string>>, faults: set<string>, phase: Phase) {
    match phase
    case Unlaunched(error) => error in faults
    case Recording(error) => error in faults
    case Failing(error) => error in faults
    case Finishing(next) => Tells(next, ends, faults)
    case _ => true
  }

  predicate History(w: World) {
    && (w.receipt.Some? ==> Tells(w.receipt.value, w.ends, w.faults))
    && forall p | 0 <= p < |w.processes| :: PhaseTold(w.ends, w.faults, w.processes[p])
  }

  /** A hand-over ends alone: nobody else is about to write, and nothing final is stored. */
  lemma HandoverIsTold(w: World, step: Step)
    requires Invariant(w) && History(w) && Enabled(w, step) && step.HandoverEnds?
    ensures History(After(w, step))
  {
    var w', p := After(w, step), step.p;
    assert PhaseOk(w.receipt, w.lock, p, w.processes[p]);
    forall q | 0 <= q < |w.processes| && q != p
      ensures PhaseTold(w'.ends, w'.faults, w'.processes[q])
    {
      assert PhaseOk(w.receipt, w.lock, q, w.processes[q]);
      assert PhaseTold(w.ends, w.faults, w.processes[q]);
    }
  }

  /** The steps that read or write the receipt or take the lock. */
  predicate UsesReceipt(step: Step) {
    step.Write? || step.WriteFails? || step.LookUnlocked? || step.LookLocked? || step.TryLock?
  }

  lemma ReadingIsTold(w: World, step: Step)
    requires History(w) && Enabled(w, step) && UsesReceipt(step)
    ensures History(After(w, step))
  {
    hide LastEnded;
    var w' := After(w, step);
    forall q | 0 <= q < |w'.processes|
      ensures PhaseTold(w'.ends, w'.faults, w'.processes[q])
    {
      assert q < |w.processes| ==> PhaseTold(w.ends, w.faults, w.processes[q]);
    }
    if step.Write? {
      assert PhaseTold(w.ends, w.faults, w.processes[step.p]);
    }
  }

  lemma RestIsTold(w: World, step: Step)
    requires History(w) && Enabled(w, step) && !step.HandoverEnds? && !UsesReceipt(step)
    ensures History(After(w, step))
  {
    hide LastEnded;
    var w' := After(w, step);
    forall q | 0 <= q < |w'.processes|
      ensures PhaseTold(w'.ends, w'.faults, w'.processes[q])
    {
      assert q < |w.processes| ==> PhaseTold(w.ends, w.faults, w.processes[q]);
    }
  }

  lemma {:induction false} AlwaysHistory(ws: seq<World>, i: nat)
    requires Behaviour(ws) && i < |ws|
    ensures History(ws[i])
    decreases i
  {
    hide Enabled;
    if i > 0 {
      hide Invariant, History;
      AlwaysHistory(ws, i - 1);
      AlwaysInvariant(ws, i - 1);
      assert Goes(ws[i - 1], ws[i]);
      var step :| Enabled(ws[i - 1], step) && ws[i] == After(ws[i - 1], step);
      if step.HandoverEnds? {
        HandoverIsTold(ws[i - 1], step);
      } else if UsesReceipt(step) {
        ReadingIsTold(ws[i - 1], step);
      } else {
        RestIsTold(ws[i - 1], step);
      }
    }
  }

  /** Over every run a stored success is that of the last hand-over, and a stored failure
      carries an error that was met, or says that a success could not be written. */
  lemma ReceiptsTellTheTruth(ws: seq<World>, i: nat)
    requires Behaviour(ws) && i < |ws| && ws[i].receipt.Some?
    ensures Tells(ws[i].receipt.value, ws[i].ends, ws[i].faults)
  {
    hide Behaviour, Tells;
    AlwaysHistory(ws, i);
  }

  /** When a hand-over ends, its worker is about to write a success exactly if it did not fail. */
  lemma EndsAreWritten(w: World, step: Step)
    requires Enabled(w, step) && step.HandoverEnds?
    ensures var w' := After(w, step); var phase := w'.processes[step.p];
            && phase.Finishing? && LastEnded(w'.ends, step.failure)
            && (phase.next.outcome.Succeeded? <==> step.failure.None?) && !Open(phase.next)
            && (step.failure.Some? ==> phase.next.error == step.failure.value)
  {
  }

  /** An acceptor that reads an unfinished receipt, with or without the lock, goes on to launch
      a worker for it, so that an operation whose worker died is taken up again. */
  lemma UnfinishedIsTakenUp(w: World, step: Step)
    requires Enabled(w, step) && IsOpen(w.receipt)
    requires step.LookUnlocked? || (step.LookLocked? && w.processes[step.p].Holding?)
    ensures After(w, step).processes[step.p] == Scheduled && After(w, step).receipt == w.receipt
    ensures step.LookLocked? ==> After(w, step).lock != Some(Process(step.p))
  {
  }

  /** An end that cannot be written leaves the receipt unfinished, so that it can be taken up
      again; if it was a success, the worker first tries to write a failure instead. */
  lemma UnwrittenEndStaysOpen(w: World, p: nat)
    requires Invariant(w) && Enabled(w, WriteFails(p)) && w.processes[p].Finishing?
    ensures var w' := After(w, WriteFails(p));
            && w'.receipt == w.receipt && IsOpen(w'.receipt)
            && (w.processes[p].next.outcome.Failed? ==> w'.processes[p].Ended? && w'.lock.None?)
            && (w.processes[p].next.outcome.Succeeded? ==>
                  && w'.lock == w.lock && Enabled(w', Write(p)) && Enabled(w', WriteFails(p))
                  && After(w', Write(p)).receipt == Some(Receipt(Failed, NOT_PERSISTED))
                  && After(w', WriteFails(p)).receipt == w.receipt && After(w', WriteFails(p)).lock.None?)
  {
    assert PhaseOk(w.receipt, w.lock, p, w.processes[p]);
  }

  /** An acceptor that finds the lock taken looks at the receipt once more, and an unfinished
      one is then taken up without the lock. */
  lemma TakenLockIsLookedPast(w: World, p: nat)
    requires Enabled(w, TryLock(p)) && w.processes[p].Checked? && w.lock.Some?
    ensures var w' := After(w, TryLock(p));
            && w'.lock == w.lock && Enabled(w', LookUnlocked(p))
            && After(w', LookUnlocked(p)).processes[p] == if IsOpen(w.receipt) then Scheduled else Ended
  {
  }

  /** A launch that failed is recorded once the lock is free, unless the receipt is finished. */
  lemma LaunchFailureIsRecorded(w: World, p: nat)
    requires w.lock.None? && At(w, p) && w.processes[p].Unlaunched?
    ensures Enabled(w, TryLock(p)) && Enabled(After(w, TryLock(p)), LookLocked(p))
    ensures var w' := After(After(w, TryLock(p)), LookLocked(p));
            if IsOpen(w.receipt) then
              && Enabled(w', Write(p)) && After(w', Write(p)).lock.None?
              && After(w', Write(p)).receipt == Some(Receipt(Failed, w.processes[p].error))
            else w'.receipt == w.receipt && w'.lock.None? && w'.processes[p].Ended?
  {
  }

  // -------------------------------------------------------------- the lock is given back

  /** The lock is held by a process whose phase says so, or by someone else altogether. */
  predicate LockHeld(w: World) {
    w.lock.Some? && w.lock.value.Process? ==>
      w.lock.value.id < |w.processes| && HoldsLock(w.processes[w.lock.value.id])
  }

  lemma LockStaysHeld(w: World, step: Step)
    requires LockHeld(w) && Enabled(w, step)
    ensures LockHeld(After(w, step))
  {
  }

  /** In every run a process that is over, even by a crash, does not hold the lock. */
  lemma {:induction false} LockIsGivenBack(ws: seq<World>, i: nat)
    requires Behaviour(ws) && i < |ws|
    ensures LockHeld(ws[i])
    ensures forall p | 0 <= p < |ws[i].processes| && ws[i].processes[p].Ended? :: ws[i].lock != Some(Process(p))
    decreases i
  {
    hide Enabled, After;
    if i > 0 {
      hide LockHeld;
      LockIsGivenBack(ws, i - 1);
      assert Goes(ws[i - 1], ws[i]);
      var step :| Enabled(ws[i - 1], step) && ws[i] == After(ws[i - 1], step);
      LockStaysHeld(ws[i - 1], step);
    }
    EndedHoldsNothing(ws[i]);
  }

  lemma EndedHoldsNothing(w: World)
    ensures LockHeld(w) ==> forall p | 0 <= p < |w.processes| && w.processes[p].Ended? :: w.lock != Some(Process(p))
  {
  }

  // -------------------------------------------------------------- an undisturbed recovery

  /** Some steps lead from one world to the other. */
  ghost predicate Leads(w: World, w': World) {
    exists ws: seq<World> :: ws != [] && ws[0] == w && ws[|ws| - 1] == w' && Steps(ws)
  }

  ghost predicate Steps(ws: seq<World>) {
    forall i | 0 < i < |ws| :: Goes(ws[i - 1], ws[i])
  }

  lemma LeadsNowhere(w: World)
    ensures Leads(w, w)
  {
    assert Steps([w]) && [w][0] == w;
  }

  lemma LeadsOn(a: World, b: World, step: Step, c: World)
    requires Leads(a, b) && Enabled(b, step) && c == After(b, step)
    ensures Leads(a, c)
  {
    hide Enabled, After;
    var ws: seq<World> :| ws != [] && ws[0] == a && ws[|ws| - 1] == b && Steps(ws);
    var more := ws + [c];
    assert Goes(b, c);
    forall i | 0 < i < |more|
      ensures Goes(more[i - 1], more[i])
    {
      assert i < |ws| ==> Goes(ws[i - 1], ws[i]);
    }
    assert more[0] == a && more[|more| - 1] == c && Steps(more);
  }

  /** The world with one process more, and the receipt and lock as given. */
  function Joined(w: World, phase: Phase, receipt: Option<Receipt>, lock: Option<Holder>): World {
    w.(processes := w.processes + [phase], receipt := receipt, lock := lock)
  }

  lemma Turns(w: World, a: Phase, b: Phase)
    ensures (w.processes + [a])[|w.processes| := b] == w.processes + [b]
  {
  }

  const ACCEPTED := Receipt(Accepted, "")
  const IN_PROGRESS := Receipt(InProgress, "")

  /** A first request that nobody disturbs is accepted and its worker launched. */
  lemma RequestIsAccepted(w: World)
    requires w.lock.None? && w.receipt.None?
    ensures Leads(w, Joined(Joined(w, Ended, None, None), Spawned, Some(ACCEPTED), None))
  {
    hide Leads;
    var p := |w.processes|;
    LeadsNowhere(w);
    var w1 := Joined(w, Arrived, None, None);
    LeadsOn(w, w, Arrive, w1);
    var w2 := Joined(w, Checked, None, None);
    Turns(w, Arrived, Checked);
    LeadsOn(w, w1, LookUnlocked(p), w2);
    var w3 := Joined(w, Holding, None, Some(Process(p)));
    Turns(w, Checked, Holding);
    LeadsOn(w, w2, TryLock(p), w3);
    var w4 := Joined(w, Admitting, None, Some(Process(p)));
    Turns(w, Holding, Admitting);
    LeadsOn(w, w3, LookLocked(p), w4);
    var w5 := Joined(w, Admitted, Some(ACCEPTED), Some(Process(p)));
    Turns(w, Admitting, Admitted);
    LeadsOn(w, w4, Write(p), w5);
    var w6 := Joined(w, Scheduled, Some(ACCEPTED), None);
    Turns(w, Admitted, Scheduled);
    LeadsOn(w, w5, Unlock(p), w6);
    Turns(w, Scheduled, Ended);
    LeadsOn(w, w6, Launch(p), Joined(Joined(w, Ended, None, None), Spawned, Some(ACCEPTED), None));
  }

  /** A request that finds an unfinished receipt, of a worker that died say, launches another. */
  lemma RequestTakesUp(w: World)
    requires w.lock.None? && IsOpen(w.receipt)
    ensures Leads(w, Joined(Joined(w, Ended, w.receipt, None), Spawned, w.receipt, None))
  {
    hide Leads;
    var p := |w.processes|;
    LeadsNowhere(w);
    var w1 := Joined(w, Arrived, w.receipt, None);
    LeadsOn(w, w, Arrive, w1);
    var w2 := Joined(w, Scheduled, w.receipt, None);
    Turns(w, Arrived, Scheduled);
    LeadsOn(w, w1, LookUnlocked(p), w2);
    Turns(w, Scheduled, Ended);
    LeadsOn(w, w2, Launch(p), Joined(Joined(w, Ended, w.receipt, None), Spawned, w.receipt, None));
  }

  /** A launched worker that nobody disturbs hands the gateway over and stores how that ended. */
  lemma WorkerHandsOver(start: World, w: World, receipt: Option<Receipt>, failure: Option<string>)
    requires IsOpen(receipt) && Leads(start, Joined(w, Spawned, receipt, None))
    ensures var stored := if failure.None? then Receipt(Succeeded, "") else Receipt(Failed, failure.value);
            Leads(start, Joined(w, Ended, Some(stored), None).(handovers := w.handovers + [receipt], ends := w.ends + [failure]))
  {
    hide Leads;
    var p := |w.processes|;
    var stored := if failure.None? then Receipt(Succeeded, "") else Receipt(Failed, failure.value);
    var w0 := Joined(w, Spawned, receipt, None);
    var w1 := Joined(w, Starting, receipt, Some(Process(p)));
    Turns(w, Spawned, Starting);
    LeadsOn(start, w0, TryLock(p), w1);
    var w2 := Joined(w, Marking(receipt), receipt, Some(Process(p)));
    Turns(w, Starting, Marking(receipt));
    LeadsOn(start, w1, LookLocked(p), w2);
    var w3 := Joined(w, Marked(receipt), Some(IN_PROGRESS), Some(Process(p)));
    Turns(w, Marking(receipt), Marked(receipt));
    LeadsOn(start, w2, Write(p), w3);
    var begun := w.(handovers := w.handovers + [receipt]);
    var w4 := Joined(begun, HandingOver(receipt), Some(IN_PROGRESS), Some(Process(p)));
    Turns(w, Marked(receipt), HandingOver(receipt));
    LeadsOn(start, w3, StopGateway(p), w4);
    var ended := begun.(ends := w.ends + [failure]);
    var w5 := Joined(ended, Finishing(stored), Some(IN_PROGRESS), Some(Process(p)));
    Turns(w, HandingOver(receipt), Finishing(stored));
    LeadsOn(start, w4, HandoverEnds(p, failure), w5);
    Turns(w, Finishing(stored), Ended);
    LeadsOn(start, w5, Write(p), Joined(ended, Ended, Some(stored), None));
  }

  /** From any world in which the lock is free and the operation is not finished, a request can
      go on to a hand-over whose end is stored, whatever it is. */
  lemma RecoveriesCanBeServed(w: World, failure: Option<string>)
    requires w.lock.None? && Actionable(w.receipt)
    ensures exists w' :: Leads(w, w') && w'.lock.None? && w'.ends == w.ends + [failure] && |w'.handovers| == |w.handovers| + 1 &&
              w'.receipt == Some(if failure.None? then Receipt(Succeeded, "") else Receipt(Failed, failure.value))
  {
    hide Leads;
    var base := Joined(w, Ended, w.receipt, None);
    if w.receipt.None? {
      RequestIsAccepted(w);
      WorkerHandsOver(w, base, Some(ACCEPTED), failure);
    } else {
      RequestTakesUp(w);
      WorkerHandsOver(w, base, w.receipt, failure);
    }
  }
}
