/** The receipt of a debug activation, shared by racing acceptors and detached workers. */
module DebugReceipt {
  import opened Json

  const MAX_DEBUG_ACTIVATION_ATTEMPTS := 3
  const RECEIPT_WRITE_ATTEMPTS := 2

  datatype ReceiptOutcome = Accepted | InProgress | Succeeded | Failed

  /** The evidence kept of an earlier attempt. */
  datatype PriorAttempt = PriorAttempt(attempt: int, error: string)

  datatype Receipt = Receipt(outcome: ReceiptOutcome, retryable: bool, error: string, attempt: int, prior: seq<PriorAttempt>)

  function AttemptOf(r: Receipt): int {
    if r.attempt < 1 then 1 else r.attempt
  }

  predicate Retryable(r: Receipt) {
    r.outcome.Failed? && r.retryable && AttemptOf(r) < MAX_DEBUG_ACTIVATION_ATTEMPTS
  }

  predicate Final(r: Receipt) {
    r.outcome.Succeeded? || (r.outcome.Failed? && !Retryable(r))
  }

  /** Whether a request may go on to admit an attempt. */
  predicate Admissible(receipt: Option<Receipt>) {
    receipt.Some? ==> Retryable(receipt.value)
  }

  function Admission(receipt: Option<Receipt>): Receipt {
    match receipt
    case None => Receipt(Accepted, false, "", 1, [])
    case Some(r) => Receipt(Accepted, false, "", AttemptOf(r) + 1, r.prior + [PriorAttempt(AttemptOf(r), r.error)])
  }

  // -------------------------------------------------------------- the state

  /** Where a process is. An acceptor arrives, looks without the lock, looks again with it,
      writes the admission, lets go of the lock, launches a worker and records it if that
      fails. A worker marks the receipt, runs the checks before the cutover, then the
      cutover, and writes the end. */
  datatype Phase =
    | Arrived
    | Checked
    | Holding
    | Admitting(next: Receipt)
    | Admitted
    | Scheduled
    | Unlaunched(error: string)
    | Recording(error: string)
    | Spawned
    | Starting
    | Marking(next: Receipt)
    | Preflight(current: Receipt)
    | Cutover(current: Receipt)
    | Writing(next: Receipt, tries: nat)
    | Ended

  datatype Holder = Process(id: nat) | Outsider

  /** How an attempt came to its end. */
  datatype Ending = LaunchFailed(error: string) | PreflightFailed(error: string) | CutoverEnded(failure: Option<string>)

  /** The receipt of one source, the operation lock, every process ever started for it, the
      attempts that entered the cutover, and how each attempt that came to an end did so. */
  datatype World = World(receipt: Option<Receipt>, lock: Option<Holder>, processes: seq<Phase>, entered: seq<int>,
                         endings: map<int, Ending>)

  predicate HoldsLock(phase: Phase) {
    || phase.Holding? || phase.Admitting? || phase.Admitted? || phase.Recording? || phase.Starting?
    || phase.Marking? || phase.Preflight? || phase.Cutover? || phase.Writing?
  }

  /** The process carries the one launch of the current admission. */
  predicate Live(phase: Phase) {
    !(phase.Arrived? || phase.Checked? || phase.Holding? || phase.Admitting? || phase.Ended?)
  }

  // -------------------------------------------------------------- the steps

  datatype Step =
    | Arrive
    | LookUnlocked(p: nat)
    | TryLock(p: nat)
    | LookLocked(p: nat)
    | Write(p: nat)
    | WriteFails(p: nat)
    | Unlock(p: nat)
    | Launch(p: nat)
    | LaunchFails(p: nat, error: string)
    | PreflightFails(p: nat, error: string)
    | EnterCutover(p: nat)
    | CutoverEnds(p: nat, failure: Option<string>)
    | Crash(p: nat)
    | OutsiderLocks
    | OutsiderUnlocks

  predicate At(w: World, p: nat) {
    p < |w.processes|
  }

  predicate Enabled(w: World, step: Step) {
    match step
    case Arrive => true
    case LookUnlocked(p) => At(w, p) && w.processes[p].Arrived?
    case TryLock(p) => At(w, p) && (w.processes[p].Checked? || w.processes[p].Unlaunched? || w.processes[p].Spawned?)
    case LookLocked(p) => At(w, p) && (w.processes[p].Holding? || w.processes[p].Recording? || w.processes[p].Starting?)
    case Write(p) => At(w, p) && (w.processes[p].Admitting? || w.processes[p].Marking? || w.processes[p].Writing?)
    case WriteFails(p) => At(w, p) && (w.processes[p].Admitting? || w.processes[p].Marking? || w.processes[p].Writing?)
    case Unlock(p) => At(w, p) && w.processes[p].Admitted?
    case Launch(p) => At(w, p) && w.processes[p].Scheduled?
    case LaunchFails(p, _) => At(w, p) && w.processes[p].Scheduled?
    case PreflightFails(p, _) => At(w, p) && w.processes[p].Preflight?
    case EnterCutover(p) => At(w, p) && w.processes[p].Preflight?
    case CutoverEnds(p, _) => At(w, p) && w.processes[p].Cutover?
    case Crash(p) => At(w, p)
    case OutsiderLocks => w.lock.None?
    case OutsiderUnlocks => w.lock == Some(Outsider)
  }

  function Become(w: World, p: nat, phase: Phase): World
    requires p < |w.processes|
  {
    w.(processes := w.processes[p := phase])
  }

  /** Ends a process; the system gives back its lock. */
  function End(w: World, p: nat): World
    requires p < |w.processes|
  {
    Become(w, p, Ended).(lock := if w.lock == Some(Process(p)) then None else w.lock)
  }

  /** What a process does once it has read the receipt under the lock. */
  function LookedLocked(w: World, p: nat): World
    requires p < |w.processes|
  {
    match w.processes[p]
    case Holding => if Admissible(w.receipt) then Become(w, p, Admitting(Admission(w.receipt))) else End(w, p)
    case Recording(error) =>
      if w.receipt.None? || w.receipt.value.outcome.Succeeded? || w.receipt.value.outcome.Failed? then End(w, p)
      else Become(w, p, Writing(w.receipt.value.(outcome := Failed, error := error, retryable := true), RECEIPT_WRITE_ATTEMPTS))
    case _ =>
      if w.receipt.None? || w.receipt.value.outcome.Succeeded? || w.receipt.value.outcome.Failed? then End(w, p)
      else Become(w, p, Marking(w.receipt.value.(outcome := InProgress)))
  }

  function Written(w: World, p: nat): World
    requires p < |w.processes|
  {
    match w.processes[p]
    case Admitting(next) => Become(w, p, Admitted).(receipt := Some(next))
    case Marking(next) => Become(w, p, Preflight(next)).(receipt := Some(next))
    case Writing(next, _) => End(w, p).(receipt := Some(next))
    case _ => w
  }

  function Terminal(current: Receipt, error: Option<string>, preflight: bool): Receipt {
    match error
    case None => Receipt(Succeeded, false, "", AttemptOf(current), current.prior)
    case Some(message) => Receipt(Failed, preflight, message, AttemptOf(current), current.prior)
  }

  function After(w: World, step: Step): World
    requires Enabled(w, step)
  {
    match step
    case Arrive => w.(processes := w.processes + [Arrived])
    case LookUnlocked(p) => Become(w, p, if Admissible(w.receipt) then Checked else Ended)
    // The lock is not waited for: whoever finds it taken gives up.
    case TryLock(p) =>
      if w.lock.Some? then Become(w, p, Ended)
      else
        Become(w, p, match w.processes[p]
                     case Checked => Holding
                     case Unlaunched(error) => Recording(error)
                     case _ => Starting).(lock := Some(Process(p)))
    case LookLocked(p) => LookedLocked(w, p)
    case Write(p) => Written(w, p)
    case WriteFails(p) =>
      if w.processes[p].Writing? && w.processes[p].tries > 1
      then Become(w, p, Writing(w.processes[p].next, w.processes[p].tries - 1)) else End(w, p)
    case Unlock(p) => Become(w, p, Scheduled).(lock := if w.lock == Some(Process(p)) then None else w.lock)
    case Launch(p) => var w' := Become(w, p, Ended); w'.(processes := w'.processes + [Spawned])
    case LaunchFails(p, error) =>
      Become(w, p, Unlaunched(error))
      .(endings := if w.receipt.None? then w.endings else w.endings[w.receipt.value.attempt := LaunchFailed(error)])
    case PreflightFails(p, error) =>
      Become(w, p, Writing(Terminal(w.processes[p].current, Some(error), true), RECEIPT_WRITE_ATTEMPTS))
      .(endings := w.endings[w.processes[p].current.attempt := PreflightFailed(error)])
    case EnterCutover(p) =>
      Become(w, p, Cutover(w.processes[p].current)).(entered := w.entered + [w.processes[p].current.attempt])
    case CutoverEnds(p, failure) =>
      Become(w, p, Writing(Terminal(w.processes[p].current, failure, false), RECEIPT_WRITE_ATTEMPTS))
      .(endings := w.endings[w.processes[p].current.attempt := CutoverEnded(failure)])
    case Crash(p) => End(w, p)
    case OutsiderLocks => w.(lock := Some(Outsider))
    case OutsiderUnlocks => w.(lock := None)
  }

  predicate Initial(w: World) {
    w.receipt.None? && w.lock.None? && w.processes == [] && w.entered == [] && w.endings == map[]
  }

  ghost predicate Goes(w: World, w': World) {
    exists step :: Enabled(w, step) && w' == After(w, step)
  }

  ghost predicate Behaviour(ws: seq<World>) {
    ws != [] && Initial(ws[0]) && forall i | 0 < i < |ws| :: Goes(ws[i - 1], ws[i])
  }

  // -------------------------------------------------------------- what every step keeps

  /** The attempt is within the bound and the earlier ones are all on record, in order. */
  predicate WellNumbered(r: Receipt) {
    && 1 <= r.attempt <= MAX_DEBUG_ACTIVATION_ATTEMPTS && |r.prior| == r.attempt - 1
    && forall k | 0 <= k < |r.prior| :: r.prior[k].attempt == k + 1
  }

  predicate Open(r: Receipt) {
    r.outcome.Accepted? || r.outcome.InProgress?
  }

  predicate PhaseOk(receipt: Option<Receipt>, lock: Option<Holder>, entered: seq<int>, p: nat, phase: Phase) {
    && (HoldsLock(phase) ==> lock == Some(Process(p)))
    && match phase
       case Arrived => true
       case Checked => true
       case Holding => true
       case Ended => true
       case Admitting(next) => Admissible(receipt) && next == Admission(receipt)
       case Marking(next) =>
         receipt.Some? && receipt.value.outcome.Accepted? && next == receipt.value.(outcome := InProgress) && entered == []
       case Preflight(current) => receipt == Some(current) && current.outcome.InProgress? && entered == []
       case Cutover(current) => receipt == Some(current) && current.outcome.InProgress? && entered == [current.attempt]
       case Writing(next, _) =>
         && receipt.Some? && Open(receipt.value) && !Open(next)
         && next.attempt == receipt.value.attempt && next.prior == receipt.value.prior
         && (next.retryable ==> entered == [])
       case _ => receipt.Some? && receipt.value.outcome.Accepted? && entered == []
  }

  predicate PhasesOk(w: World) {
    forall p | 0 <= p < |w.processes| :: PhaseOk(w.receipt, w.lock, w.entered, p, w.processes[p])
  }

  predicate OneLive(processes: seq<Phase>) {
    forall p, q | 0 <= p < q < |processes| :: !(Live(processes[p]) && Live(processes[q]))
  }

  /** Once an attempt has entered the cutover, no receipt admits another. */
  predicate EnteredOk(w: World) {
    && |w.entered| <= 1
    && (w.entered != [] ==>
          && w.receipt.Some? && w.receipt.value.attempt == w.entered[0]
          && !w.receipt.value.outcome.Accepted? && (w.receipt.value.outcome.Failed? ==> !w.receipt.value.retryable))
  }

  predicate Invariant(w: World) {
    && (w.receipt.Some? ==> WellNumbered(w.receipt.value))
    && PhasesOk(w) && OneLive(w.processes) && EnteredOk(w)
  }

  /** What happens to the receipt over time. */
  predicate Follows(before: Option<Receipt>, after: Option<Receipt>) {
    before.Some? ==>
      && after.Some? && before.value.attempt <= after.value.attempt && before.value.prior <= after.value.prior
      && (Final(before.value) ==> after == before)
  }

  predicate Uses(phase: Phase) {
    Live(phase) || phase.Admitting?
  }

  /** Nobody but p depends on the receipt. */
  predicate Alone(processes: seq<Phase>, p: nat) {
    forall q | 0 <= q < |processes| && q != p :: !Uses(processes[q])
  }

  /** Step of process p: the others stand still, and may keep what they know. */
  predicate Undisturbed(w: World, w': World, p: nat) {
    && |w.processes| <= |w'.processes|
    && (forall q | 0 <= q < |w.processes| && q != p :: w'.processes[q] == w.processes[q])
    && (forall q | 0 <= q < |w.processes| && q != p && w.lock == Some(Process(q)) :: w'.lock == w.lock)
    && ((w'.receipt == w.receipt && w'.entered == w.entered) || Alone(w.processes, p))
  }

  lemma OthersKeep(w: World, w': World, p: nat)
    requires PhasesOk(w) && Undisturbed(w, w', p)
    ensures forall q | 0 <= q < |w.processes| && q != p :: PhaseOk(w'.receipt, w'.lock, w'.entered, q, w'.processes[q])
  {
    forall q | 0 <= q < |w.processes| && q != p
      ensures PhaseOk(w'.receipt, w'.lock, w'.entered, q, w'.processes[q])
    {
      assert PhaseOk(w.receipt, w.lock, w.entered, q, w.processes[q]);
    }
  }

  /** The holder of the lock that is about to write is alone with the receipt. */
  lemma WriterIsAlone(w: World, p: nat)
    requires Invariant(w) && p < |w.processes| && HoldsLock(w.processes[p]) && Uses(w.processes[p])
    ensures Alone(w.processes, p)
  {
    assert PhaseOk(w.receipt, w.lock, w.entered, p, w.processes[p]);
    forall q | 0 <= q < |w.processes| && q != p
      ensures !Uses(w.processes[q])
    {
      assert PhaseOk(w.receipt, w.lock, w.entered, q, w.processes[q]);
    }
  }

  lemma LiveStaysOne(w: World, w': World, p: nat)
    requires OneLive(w.processes) && p < |w.processes| == |w'.processes|
    requires forall q | 0 <= q < |w.processes| && q != p :: w'.processes[q] == w.processes[q]
    requires Live(w'.processes[p]) ==> Live(w.processes[p]) || Alone(w.processes, p)
    ensures OneLive(w'.processes)
  {
  }

  lemma QuietKeeps(w: World, w': World, p: nat)
    requires Invariant(w) && p < |w.processes| == |w'.processes|
    requires w'.receipt == w.receipt && w'.entered == w.entered
    requires Undisturbed(w, w', p) && PhaseOk(w'.receipt, w'.lock, w'.entered, p, w'.processes[p])
    requires Live(w'.processes[p]) ==> Live(w.processes[p])
    ensures Invariant(w') && Follows(w.receipt, w'.receipt)
  {
    hide PhaseOk, Live, Undisturbed;
    assert Undisturbed(w, w', p);
    OthersKeep(w, w', p);
    UndisturbedMeans(w, w', p);
    LiveStaysOne(w, w', p);
  }

  lemma UndisturbedMeans(w: World, w': World, p: nat)
    requires Undisturbed(w, w', p)
    ensures forall q | 0 <= q < |w.processes| && q != p && q < |w'.processes| :: w'.processes[q] == w.processes[q]
  {
  }

  lemma WriteKeeps(w: World, p: nat)
    requires Invariant(w) && Enabled(w, Write(p))
    ensures Invariant(After(w, Write(p))) && Follows(w.receipt, After(w, Write(p)).receipt)
  {
    var w' := After(w, Write(p));
    assert PhaseOk(w.receipt, w.lock, w.entered, p, w.processes[p]);
    WriterIsAlone(w, p);
    OthersKeep(w, w', p);
    LiveStaysOne(w, w', p);
  }

  lemma EnterKeeps(w: World, p: nat)
    requires Invariant(w) && Enabled(w, EnterCutover(p))
    ensures Invariant(After(w, EnterCutover(p))) && Follows(w.receipt, After(w, EnterCutover(p)).receipt)
  {
    var w' := After(w, EnterCutover(p));
    assert PhaseOk(w.receipt, w.lock, w.entered, p, w.processes[p]);
    WriterIsAlone(w, p);
    OthersKeep(w, w', p);
    LiveStaysOne(w, w', p);
  }

  /** A process started, or a launch handed from an acceptor to its worker. */
  lemma StartKeeps(w: World, step: Step)
    requires Invariant(w) && Enabled(w, step) && (step.Arrive? || step.Launch?)
    ensures Invariant(After(w, step)) && Follows(w.receipt, After(w, step).receipt)
  {
    var w' := After(w, step);
    var p := if step.Launch? then step.p else |w.processes|;
    if step.Launch? {
      assert PhaseOk(w.receipt, w.lock, w.entered, p, w.processes[p]);
    }
    OthersKeep(w, w', p);
  }

  lemma LookKeeps(w: World, step: Step)
    requires Invariant(w) && Enabled(w, step) && (step.LookUnlocked? || step.LookLocked? || step.TryLock?)
    ensures Invariant(After(w, step)) && Follows(w.receipt, After(w, step).receipt)
  {
    assert PhaseOk(w.receipt, w.lock, w.entered, step.p, w.processes[step.p]);
    QuietKeeps(w, After(w, step), step.p);
  }

  lemma WorkKeeps(w: World, step: Step)
    requires Invariant(w) && Enabled(w, step)
    requires step.WriteFails? || step.Unlock? || step.LaunchFails? || step.PreflightFails? || step.CutoverEnds? || step.Crash?
    ensures Invariant(After(w, step)) && Follows(w.receipt, After(w, step).receipt)
  {
    hide OneLive, EnteredOk, Admissible, Admission;
    assert PhaseOk(w.receipt, w.lock, w.entered, step.p, w.processes[step.p]);
    QuietKeeps(w, After(w, step), step.p);
  }

  lemma OutsiderKeeps(w: World, step: Step)
    requires Invariant(w) && Enabled(w, step) && (step.OutsiderLocks? || step.OutsiderUnlocks?)
    ensures Invariant(After(w, step)) && Follows(w.receipt, After(w, step).receipt)
  {
    OthersKeep(w, After(w, step), |w.processes|);
  }

  lemma EveryStepKeeps(w: World, step: Step)
    requires Invariant(w) && Enabled(w, step)
    ensures Invariant(After(w, step)) && Follows(w.receipt, After(w, step).receipt) && w.entered <= After(w, step).entered
  {
    hide Invariant, Follows;
    match step
    case Arrive => StartKeeps(w, step);
    case Launch(_) => StartKeeps(w, step);
    case LookUnlocked(_) => LookKeeps(w, step);
    case LookLocked(_) => LookKeeps(w, step);
    case TryLock(_) => LookKeeps(w, step);
    case Write(p) => WriteKeeps(w, p);
    case EnterCutover(p) => EnterKeeps(w, p);
    case WriteFails(_) => WorkKeeps(w, step);
    case Unlock(_) => WorkKeeps(w, step);
    case LaunchFails(_, _) => WorkKeeps(w, step);
    case PreflightFails(_, _) => WorkKeeps(w, step);
    case CutoverEnds(_, _) => WorkKeeps(w, step);
    case Crash(_) => WorkKeeps(w, step);
    case OutsiderLocks => OutsiderKeeps(w, step);
    case OutsiderUnlocks => OutsiderKeeps(w, step);
  }

  // -------------------------------------------------------------- what every behaviour keeps

  lemma {:induction false} AlwaysInvariant(ws: seq<World>, i: nat)
    requires Behaviour(ws) && i < |ws|
    ensures Invariant(ws[i])
    decreases i
  {
    hide Enabled;
    if i > 0 {
      hide Invariant;
      AlwaysInvariant(ws, i - 1);
      assert Goes(ws[i - 1], ws[i]);
      var step :| Enabled(ws[i - 1], step) && ws[i] == After(ws[i - 1], step);
      EveryStepKeeps(ws[i - 1], step);
    }
  }

  lemma FollowsTransitive(a: Option<Receipt>, b: Option<Receipt>, c: Option<Receipt>)
    requires Follows(a, b) && Follows(b, c)
    ensures Follows(a, c)
  {
  }

  lemma {:induction false} AlwaysFollows(ws: seq<World>, i: nat, j: nat)
    requires Behaviour(ws) && i <= j < |ws|
    ensures Follows(ws[i].receipt, ws[j].receipt) && ws[i].entered <= ws[j].entered
    decreases j
  {
    hide Enabled, Invariant;
    if i < j {
      AlwaysFollows(ws, i, j - 1);
      AlwaysInvariant(ws, j - 1);
      assert Goes(ws[j - 1], ws[j]);
      var step :| Enabled(ws[j - 1], step) && ws[j] == After(ws[j - 1], step);
      EveryStepKeeps(ws[j - 1], step);
      FollowsTransitive(ws[i].receipt, ws[j - 1].receipt, ws[j].receipt);
    }
  }

  /** Over every interleaving at most one attempt at a source ever enters the cutover, and
      it is the attempt the receipt names from then on. */
  lemma AtMostOneCutover(ws: seq<World>, i: nat)
    requires Behaviour(ws) && i < |ws|
    ensures |ws[i].entered| <= 1
    ensures forall j | i <= j < |ws| && ws[i].entered != [] ::
              && ws[j].entered == ws[i].entered
              && ws[j].receipt.Some? && ws[j].receipt.value.attempt == ws[i].entered[0]
  {
    hide Behaviour, Follows, PhasesOk, OneLive, WellNumbered;
    AlwaysInvariant(ws, i);
    forall j | i <= j < |ws| && ws[i].entered != []
      ensures ws[j].entered == ws[i].entered
      ensures ws[j].receipt.Some? && ws[j].receipt.value.attempt == ws[i].entered[0]
    {
      AlwaysFollows(ws, i, j);
      AlwaysInvariant(ws, j);
    }
  }

  /** The attempt number stays within the bound and never goes down, no earlier failure is
      ever lost, and the earlier attempts on record are exactly those before the current one. */
  lemma AttemptsAreBounded(ws: seq<World>, i: nat, j: nat)
    requires Behaviour(ws) && i <= j < |ws| && ws[i].receipt.Some?
    ensures ws[j].receipt.Some? && WellNumbered(ws[i].receipt.value)
    ensures ws[i].receipt.value.attempt <= ws[j].receipt.value.attempt <= 3
    ensures ws[i].receipt.value.prior <= ws[j].receipt.value.prior
  {
    hide Behaviour, PhasesOk, OneLive;
    AlwaysInvariant(ws, i);
    AlwaysInvariant(ws, j);
    AlwaysFollows(ws, i, j);
  }

  /** A success, or a failure that may not be retried, is never changed. */
  lemma FinalReceiptsStay(ws: seq<World>, i: nat, j: nat)
    requires Behaviour(ws) && i <= j < |ws| && ws[i].receipt.Some? && Final(ws[i].receipt.value)
    ensures ws[j].receipt == ws[i].receipt
  {
    hide Behaviour, Final;
    AlwaysFollows(ws, i, j);
  }

  /** Once an attempt has entered the cutover the receipt can never be retried, even if the
      worker crashes or cannot write the end. */
  lemma CutoverIsNotRetried(ws: seq<World>, i: nat)
    requires Behaviour(ws) && i < |ws| && ws[i].entered != []
    ensures ws[i].receipt.Some? && !Admissible(ws[i].receipt)
    ensures forall p | 0 <= p < |ws[i].processes| :: !ws[i].processes[p].Admitting? && !ws[i].processes[p].Scheduled? && !ws[i].processes[p].Spawned?
  {
    hide Behaviour;
    AlwaysInvariant(ws, i);
    forall p | 0 <= p < |ws[i].processes|
      ensures !ws[i].processes[p].Admitting? && !ws[i].processes[p].Scheduled? && !ws[i].processes[p].Spawned?
    {
      assert PhaseOk(ws[i].receipt, ws[i].lock, ws[i].entered, p, ws[i].processes[p]);
    }
  }

  // -------------------------------------------------------------- what a receipt tells

  /** The attempt ended before the cutover, with this error. */
  predicate EndedEarly(endings: map<int, Ending>, attempt: int, error: string) {
    attempt in endings && (endings[attempt] == LaunchFailed(error) || endings[attempt] == PreflightFailed(error))
  }

  /** The attempt's cutover ended so. */
  predicate CutoverEndedSo(endings: map<int, Ending>, entered: seq<int>, attempt: int, failure: Option<string>) {
    attempt in endings && endings[attempt] == CutoverEnded(failure) && entered == [attempt]
  }

  /** A success is that of a cutover without failure; a failure carries the error the attempt
      ended with, and is marked retryable exactly if that was before the cutover. */
  predicate Tells(r: Receipt, endings: map<int, Ending>, entered: seq<int>) {
    match r.outcome
    case Succeeded => CutoverEndedSo(endings, entered, r.attempt, None)
    case Failed =>
      if r.retryable then EndedEarly(endings, r.attempt, r.error)
      else CutoverEndedSo(endings, entered, r.attempt, Some(r.error))
    case _ => true
  }

  predicate PriorTold(prior: seq<PriorAttempt>, endings: map<int, Ending>) {
    forall k | 0 <= k < |prior| :: EndedEarly(endings, prior[k].attempt, prior[k].error)
  }

  /** The current attempt has not ended. */
  predicate Unended(receipt: Option<Receipt>, endings: map<int, Ending>) {
    receipt.Some? && receipt.value.attempt !in endings
  }

  predicate PhaseTold(receipt: Option<Receipt>, endings: map<int, Ending>, entered: seq<int>, phase: Phase) {
    match phase
    case Unlaunched(error) => receipt.Some? && EndedEarly(endings, receipt.value.attempt, error)
    case Recording(error) => receipt.Some? && EndedEarly(endings, receipt.value.attempt, error)
    case Writing(next, _) => Tells(next, endings, entered)
    case _ => Live(phase) ==> Unended(receipt, endings)
  }

  predicate PhasesTold(w: World) {
    forall p | 0 <= p < |w.processes| :: PhaseTold(w.receipt, w.endings, w.entered, w.processes[p])
  }

  predicate History(w: World) {
    && PhasesTold(w)
    && match w.receipt
       case None => w.endings == map[]
       case Some(r) =>
         && (forall a | a in w.endings :: a <= r.attempt)
         && (!Open(r) ==> Tells(r, w.endings, w.entered)) && PriorTold(r.prior, w.endings)
  }

  lemma OnlyOneIsLive(w: World, p: nat)
    requires Invariant(w) && p < |w.processes| && Live(w.processes[p])
    ensures forall q | 0 <= q < |w.processes| && q != p :: !Live(w.processes[q])
  {
  }

  lemma IdleIsTold(receipt: Option<Receipt>, endings: map<int, Ending>, entered: seq<int>, phase: Phase)
    requires !Live(phase)
    ensures PhaseTold(receipt, endings, entered, phase)
  {
  }

  /** A step of the one live process that ends the attempt. */
  lemma EndingIsTold(w: World, step: Step)
    requires Invariant(w) && History(w) && Enabled(w, step)
    requires step.LaunchFails? || step.PreflightFails? || step.CutoverEnds?
    ensures History(After(w, step))
  {
    hide OneLive, EnteredOk;
    var w', p := After(w, step), step.p;
    assert PhaseOk(w.receipt, w.lock, w.entered, p, w.processes[p]);
    assert PhaseTold(w.receipt, w.endings, w.entered, w.processes[p]);
    OnlyOneIsLive(w, p);
    forall q | 0 <= q < |w.processes| && q != p
      ensures PhaseTold(w'.receipt, w'.endings, w'.entered, w'.processes[q])
    {
      IdleIsTold(w'.receipt, w'.endings, w'.entered, w'.processes[q]);
    }
  }

  lemma WriteIsTold(w: World, p: nat)
    requires Invariant(w) && History(w) && Enabled(w, Write(p))
    ensures History(After(w, Write(p)))
  {
    var w' := After(w, Write(p));
    assert PhaseOk(w.receipt, w.lock, w.entered, p, w.processes[p]);
    assert PhaseTold(w.receipt, w.endings, w.entered, w.processes[p]);
    WriterIsAlone(w, p);
    forall q | 0 <= q < |w.processes| && q != p
      ensures PhaseTold(w'.receipt, w'.endings, w'.entered, w'.processes[q])
    {
      IdleIsTold(w'.receipt, w'.endings, w'.entered, w'.processes[q]);
    }
  }

  lemma EnterIsTold(w: World, p: nat)
    requires Invariant(w) && History(w) && Enabled(w, EnterCutover(p))
    ensures History(After(w, EnterCutover(p)))
  {
    var w' := After(w, EnterCutover(p));
    assert PhaseOk(w.receipt, w.lock, w.entered, p, w.processes[p]);
    assert PhaseTold(w.receipt, w.endings, w.entered, w.processes[p]);
    OnlyOneIsLive(w, p);
    forall q | 0 <= q < |w.processes| && q != p
      ensures PhaseTold(w'.receipt, w'.endings, w'.entered, w'.processes[q])
    {
      IdleIsTold(w'.receipt, w'.endings, w'.entered, w'.processes[q]);
    }
  }

  /** Steps that change neither the receipt nor how any attempt ended. */
  lemma RestIsTold(w: World, step: Step)
    requires Invariant(w) && History(w) && Enabled(w, step)
    requires !step.LaunchFails? && !step.PreflightFails? && !step.CutoverEnds? && !step.Write? && !step.EnterCutover?
    ensures History(After(w, step))
  {
    hide Invariant, PriorTold, EndedEarly, CutoverEndedSo;
    var w' := After(w, step);
    if step.Launch? {
      assert PhaseTold(w.receipt, w.endings, w.entered, w.processes[step.p]);
    }
    forall q | 0 <= q < |w'.processes|
      ensures PhaseTold(w'.receipt, w'.endings, w'.entered, w'.processes[q])
    {
      assert q < |w.processes| ==> PhaseTold(w.receipt, w.endings, w.entered, w.processes[q]);
    }
  }

  lemma {:induction false} AlwaysHistory(ws: seq<World>, i: nat)
    requires Behaviour(ws) && i < |ws|
    ensures History(ws[i])
    decreases i
  {
    hide Enabled;
    if i > 0 {
      hide Invariant, History;
      AlwaysHistory(ws, i - 1);
      AlwaysInvariant(ws, i - 1);
      assert Goes(ws[i - 1], ws[i]);
      var step :| Enabled(ws[i - 1], step) && ws[i] == After(ws[i - 1], step);
      match step
      case LaunchFails(_, _) => EndingIsTold(ws[i - 1], step);
      case PreflightFails(_, _) => EndingIsTold(ws[i - 1], step);
      case CutoverEnds(_, _) => EndingIsTold(ws[i - 1], step);
      case Write(p) => WriteIsTold(ws[i - 1], p);
      case EnterCutover(p) => EnterIsTold(ws[i - 1], p);
      case _ => RestIsTold(ws[i - 1], step);
    }
  }

  /** Over every run a stored end tells the truth about its attempt, and so does the record of
      the attempts before it. */
  lemma ReceiptsTellTheTruth(ws: seq<World>, i: nat)
    requires Behaviour(ws) && i < |ws| && ws[i].receipt.Some?
    ensures var r, w := ws[i].receipt.value, ws[i];
            && (r.outcome.Succeeded? ==> CutoverEndedSo(w.endings, w.entered, r.attempt, None))
            && (r.outcome.Failed? && r.retryable ==> EndedEarly(w.endings, r.attempt, r.error))
            && (r.outcome.Failed? && !r.retryable ==> CutoverEndedSo(w.endings, w.entered, r.attempt, Some(r.error)))
            && forall k | 0 <= k < |r.prior| :: EndedEarly(w.endings, r.prior[k].attempt, r.prior[k].error)
  {
    hide Behaviour, EndedEarly, CutoverEndedSo;
    AlwaysHistory(ws, i);
  }

  /** A stored failure before the cutover leaves the source open to another attempt, as long as
      the bound allows one; a failure in the cutover never does. */
  lemma EarlyFailureIsRetried(ws: seq<World>, i: nat)
    requires Behaviour(ws) && i < |ws| && ws[i].receipt.Some? && ws[i].receipt.value.outcome.Failed?
    ensures var r := ws[i].receipt.value;
            && r.attempt in ws[i].endings
            && (Admissible(ws[i].receipt) <==> !ws[i].endings[r.attempt].CutoverEnded? && r.attempt < MAX_DEBUG_ACTIVATION_ATTEMPTS)
  {
    hide Behaviour, PhasesOk, PhasesTold, OneLive;
    AlwaysHistory(ws, i);
    AlwaysInvariant(ws, i);
  }

  /** When an attempt fails before the cutover, what is then written is a failure that may be
      retried; when its cutover ends, a success or a failure that may not. */
  lemma EndsAreWritten(w: World, step: Step)
    requires Invariant(w) && History(w) && Enabled(w, step) && (step.PreflightFails? || step.CutoverEnds?)
    ensures var w' := After(w, step); var phase := w'.processes[step.p];
            && phase.Writing? && phase.next.attempt == w.processes[step.p].current.attempt
            && w'.endings[phase.next.attempt] == (if step.PreflightFails? then PreflightFailed(step.error) else CutoverEnded(step.failure))
            && (phase.next.outcome.Succeeded? <==> step.CutoverEnds? && step.failure.None?)
            && (phase.next.outcome.Failed? <==> !phase.next.outcome.Succeeded?)
  {
    assert PhaseOk(w.receipt, w.lock, w.entered, step.p, w.processes[step.p]);
  }

  /** The end of an attempt is written under the lock with one more try: a first failure to
      write loses nothing, a second one leaves the receipt as it was and gives the lock back. */
  lemma WritesAreTriedTwice(w: World, step: Step)
    requires Invariant(w) && Enabled(w, step) && (step.PreflightFails? || step.CutoverEnds?)
    ensures var p, w' := step.p, After(w, step);
            && Enabled(w', WriteFails(p))
            && var once := After(w', WriteFails(p));
               && once.lock == Some(Process(p)) && once.receipt == w.receipt && Enabled(once, Write(p)) && Enabled(once, WriteFails(p))
               && After(once, Write(p)).receipt == After(w', Write(p)).receipt
               && var twice := After(once, WriteFails(p));
                  twice.receipt == w.receipt && twice.processes[p].Ended? && twice.lock.None?
  {
    hide WellNumbered, OneLive, EnteredOk, Admissible, Admission;
    assert PhaseOk(w.receipt, w.lock, w.entered, step.p, w.processes[step.p]);
  }

  /** A launch that failed is recorded once the lock is free: the attempt is then a failure that
      may be retried, and a first failure to write that loses nothing either. */
  lemma LaunchFailureIsRecorded(w: World, p: nat)
    requires Invariant(w) && w.lock.None? && At(w, p) && w.processes[p].Unlaunched?
    ensures Enabled(w, TryLock(p)) && Enabled(After(w, TryLock(p)), LookLocked(p))
    ensures var w' := After(After(w, TryLock(p)), LookLocked(p));
            && w.receipt.Some? && Enabled(w', Write(p)) && Enabled(w', WriteFails(p))
            && After(w', Write(p)).receipt ==
               Some(Receipt(Failed, true, w.processes[p].error, w.receipt.value.attempt, w.receipt.value.prior))
            && After(w', Write(p)).lock.None?
            && var once := After(w', WriteFails(p));
               Enabled(once, Write(p)) && After(once, Write(p)).receipt == After(w', Write(p)).receipt
  {
    hide WellNumbered, OneLive, EnteredOk, Admissible, Admission;
    assert PhaseOk(w.receipt, w.lock, w.entered, p, w.processes[p]);
  }

  // -------------------------------------------------------------- the lock is given back

  /** The lock is held by a process whose phase says so, or by someone else altogether. */
  predicate LockHeld(w: World) {
    w.lock.Some? && w.lock.value.Process? ==>
      w.lock.value.id < |w.processes| && HoldsLock(w.processes[w.lock.value.id])
  }

  lemma LockStaysHeld(w: World, step: Step)
    requires LockHeld(w) && Enabled(w, step)
    ensures LockHeld(After(w, step))
  {
  }

  /** In every run a process that is over, even by a crash, does not hold the lock. */
  lemma {:induction false} LockIsGivenBack(ws: seq<World>, i: nat)
    requires Behaviour(ws) && i < |ws|
    ensures LockHeld(ws[i])
    ensures forall p | 0 <= p < |ws[i].processes| && ws[i].processes[p].Ended? :: ws[i].lock != Some(Process(p))
    decreases i
  {
    hide Enabled, After;
    if i > 0 {
      hide LockHeld;
      LockIsGivenBack(ws, i - 1);
      assert Goes(ws[i - 1], ws[i]);
      var step :| Enabled(ws[i - 1], step) && ws[i] == After(ws[i - 1], step);
      LockStaysHeld(ws[i - 1], step);
    }
    EndedHoldsNothing(ws[i]);
  }

  lemma EndedHoldsNothing(w: World)
    ensures LockHeld(w) ==> forall p | 0 <= p < |w.processes| && w.processes[p].Ended? :: w.lock != Some(Process(p))
  {
  }

  // -------------------------------------------------------------- an undisturbed attempt

  /** Some steps lead from one world to the other. */
  ghost predicate Leads(w: World, w': World) {
    exists ws: seq<World> :: ws != [] && ws[0] == w && ws[|ws| - 1] == w' && Steps(ws)
  }

  ghost predicate Steps(ws: seq<World>) {
    forall i | 0 < i < |ws| :: Goes(ws[i - 1], ws[i])
  }

  lemma LeadsNowhere(w: World)
    ensures Leads(w, w)
  {
    assert Steps([w]) && [w][0] == w;
  }

  lemma LeadsOn(a: World, b: World, step: Step, c: World)
    requires Leads(a, b) && Enabled(b, step) && c == After(b, step)
    ensures Leads(a, c)
  {
    hide Enabled, After;
    var ws: seq<World> :| ws != [] && ws[0] == a && ws[|ws| - 1] == b && Steps(ws);
    var more := ws + [c];
    assert Goes(b, c);
    forall i | 0 < i < |more|
      ensures Goes(more[i - 1], more[i])
    {
      assert i < |ws| ==> Goes(ws[i - 1], ws[i]);
    }
    assert more[0] == a && more[|more| - 1] == c && Steps(more);
  }

  /** The world with one process more, and the receipt and lock as given. */
  function Joined(w: World, phase: Phase, receipt: Option<Receipt>, lock: Option<Holder>): World {
    w.(processes := w.processes + [phase], receipt := receipt, lock := lock)
  }

  lemma Moves(w: World, a: Phase, b: Phase)
    ensures (w.processes + [a])[|w.processes| := b] == w.processes + [b]
  {
  }

  /** A request that nobody disturbs is admitted and its worker launched. */
  lemma RequestIsAdmitted(w: World)
    requires w.lock.None? && Admissible(w.receipt)
    ensures Leads(w, Joined(Joined(w, Ended, w.receipt, None), Spawned, Some(Admission(w.receipt)), None))
  {
    hide Leads, Admission, Admissible;
    var p, next := |w.processes|, Admission(w.receipt);
    assert Admissible(w.receipt);
    LeadsNowhere(w);
    var w1 := Joined(w, Arrived, w.receipt, None);
    LeadsOn(w, w, Arrive, w1);
    var w2 := Joined(w, Checked, w.receipt, None);
    Moves(w, Arrived, Checked);
    LeadsOn(w, w1, LookUnlocked(p), w2);
    var w3 := Joined(w, Holding, w.receipt, Some(Process(p)));
    Moves(w, Checked, Holding);
    LeadsOn(w, w2, TryLock(p), w3);
    var w4 := Joined(w, Admitting(next), w.receipt, Some(Process(p)));
    Moves(w, Holding, Admitting(next));
    LeadsOn(w, w3, LookLocked(p), w4);
    var w5 := Joined(w, Admitted, Some(next), Some(Process(p)));
    Moves(w, Admitting(next), Admitted);
    LeadsOn(w, w4, Write(p), w5);
    var w6 := Joined(w, Scheduled, Some(next), None);
    Moves(w, Admitted, Scheduled);
    LeadsOn(w, w5, Unlock(p), w6);
    Moves(w, Scheduled, Ended);
    LeadsOn(w, w6, Launch(p), Joined(Joined(w, Ended, w.receipt, None), Spawned, Some(next), None));
  }

  /** A launched worker that nobody disturbs marks the receipt and gets to its checks. */
  lemma WorkerGetsToWork(start: World, w: World, accepted: Receipt)
    requires accepted.outcome.Accepted? && Leads(start, Joined(w, Spawned, Some(accepted), None))
    ensures var current := accepted.(outcome := InProgress);
            Leads(start, Joined(w, Preflight(current), Some(current), Some(Process(|w.processes|))))
  {
    hide Leads;
    var p, current := |w.processes|, accepted.(outcome := InProgress);
    var w0 := Joined(w, Spawned, Some(accepted), None);
    var w1 := Joined(w, Starting, Some(accepted), Some(Process(p)));
    Moves(w, Spawned, Starting);
    LeadsOn(start, w0, TryLock(p), w1);
    var w2 := Joined(w, Marking(current), Some(accepted), Some(Process(p)));
    Moves(w, Starting, Marking(current));
    LeadsOn(start, w1, LookLocked(p), w2);
    var w3 := Joined(w, Preflight(current), Some(current), Some(Process(p)));
    Moves(w, Marking(current), Preflight(current));
    LeadsOn(start, w2, Write(p), w3);
  }

  /** Checks that fail before the cutover end in a failure that may be retried. */
  lemma ChecksMayFail(start: World, w: World, current: Receipt, error: string)
    requires 1 <= current.attempt && Leads(start, Joined(w, Preflight(current), Some(current), Some(Process(|w.processes|))))
    ensures Leads(start, Joined(w, Ended, Some(Receipt(Failed, true, error, current.attempt, current.prior)), None)
                         .(endings := w.endings[current.attempt := PreflightFailed(error)]))
  {
    hide Leads;
    var p, next := |w.processes|, Receipt(Failed, true, error, current.attempt, current.prior);
    var w0 := Joined(w, Preflight(current), Some(current), Some(Process(p)));
    var told := w.(endings := w.endings[current.attempt := PreflightFailed(error)]);
    var w1 := Joined(told, Writing(next, RECEIPT_WRITE_ATTEMPTS), Some(current), Some(Process(p)));
    Moves(w, Preflight(current), Writing(next, RECEIPT_WRITE_ATTEMPTS));
    LeadsOn(start, w0, PreflightFails(p, error), w1);
    Moves(w, Writing(next, RECEIPT_WRITE_ATTEMPTS), Ended);
    LeadsOn(start, w1, Write(p), Joined(told, Ended, Some(next), None));
  }

  /** A cutover that ends well is stored as a success of its attempt. */
  lemma CutoverMaySucceed(start: World, w: World, current: Receipt)
    requires 1 <= current.attempt && Leads(start, Joined(w, Preflight(current), Some(current), Some(Process(|w.processes|))))
    ensures Leads(start, Joined(w, Ended, Some(Receipt(Succeeded, false, "", current.attempt, current.prior)), None)
                         .(entered := w.entered + [current.attempt], endings := w.endings[current.attempt := CutoverEnded(None)]))
  {
    hide Leads;
    var p, next := |w.processes|, Receipt(Succeeded, false, "", current.attempt, current.prior);
    var w0 := Joined(w, Preflight(current), Some(current), Some(Process(p)));
    var entered := w.(entered := w.entered + [current.attempt]);
    var w1 := Joined(entered, Cutover(current), Some(current), Some(Process(p)));
    Moves(w, Preflight(current), Cutover(current));
    LeadsOn(start, w0, EnterCutover(p), w1);
    var told := entered.(endings := w.endings[current.attempt := CutoverEnded(None)]);
    var w2 := Joined(told, Writing(next, RECEIPT_WRITE_ATTEMPTS), Some(current), Some(Process(p)));
    Moves(w, Cutover(current), Writing(next, RECEIPT_WRITE_ATTEMPTS));
    LeadsOn(start, w1, CutoverEnds(p, None), w2);
    Moves(w, Writing(next, RECEIPT_WRITE_ATTEMPTS), Ended);
    LeadsOn(start, w2, Write(p), Joined(told, Ended, Some(next), None));
  }

  /** From any world in which the lock is free and the receipt admits an attempt, a request can
      go on to a stored success, and also to a stored failure that may be retried. */
  lemma AttemptsCanBeServed(w: World, error: string)
    requires w.lock.None? && Admissible(w.receipt)
    ensures var n := Admission(w.receipt).attempt;
            && (exists w' :: Leads(w, w') && w'.lock.None? && w'.entered == w.entered + [n] &&
                             w'.receipt == Some(Receipt(Succeeded, false, "", n, Admission(w.receipt).prior)))
            && (exists w' :: Leads(w, w') && w'.lock.None? && w'.entered == w.entered &&
                             w'.receipt == Some(Receipt(Failed, true, error, n, Admission(w.receipt).prior)))
  {
    var accepted := Admission(w.receipt);
    assert accepted.outcome.Accepted? && accepted.attempt >= 1;
    hide Leads, Admission, Admissible;
    RequestIsAdmitted(w);
    var base := Joined(w, Ended, w.receipt, None);
    WorkerGetsToWork(w, base, accepted);
    ChecksMayFail(w, base, accepted.(outcome := InProgress), error);
    CutoverMaySucceed(w, base, accepted.(outcome := InProgress));
  }
}
