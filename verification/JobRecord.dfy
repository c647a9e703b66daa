/**
 One durable job of the provider's job manager: its record, the task that runs
 it, and every way either changes.

 A `Slot` puts together what is on disk (`job`), the task running it in this
 process (`runner`), the control that task registered (`control`), and how many
 times an execution was really started (`launches`, which no code stores). `Act`
 is one atomic step of the manager on one job: one section under the mutation
 lock, or one step between two of them. A crash is `Recover`.
 */
module JobRecord {
  import opened Options

  datatype JobStatus =
    | Created | Accepted | Queued | WaitingForCapacity | Reserved | Admitted | Preparing | Running
    | Succeeded | Failed | Cancelled | TimedOut | Rejected

  predicate Terminal(status: JobStatus) {
    status.Succeeded? || status.Failed? || status.Cancelled? || status.TimedOut? || status.Rejected?
  }

  /** What an execution that returned may be recorded as. */
  predicate ExecutionStatus(status: JobStatus) {
    Terminal(status) && !status.Rejected?
  }

  /** The statuses a cancellation ends at once, before anything executes. */
  predicate NotYetExecuting(status: JobStatus) {
    status.Created? || status.Accepted? || status.Queued? || status.WaitingForCapacity?
    || status.Reserved? || status.Admitted?
  }

  predicate ValidTransition(from: JobStatus, to: JobStatus) {
    || Terminal(to)
    || ((from.Created? || from.Accepted?) && to.Queued?)
    || (from.Queued? && (to.WaitingForCapacity? || to.Reserved?))
    || (from.WaitingForCapacity? && (to.WaitingForCapacity? || to.Reserved?))
    || (from.Reserved? && (to.Admitted? || to.Preparing?))
    || (from.Admitted? && to.Preparing?)
    || (from.Preparing? && to.Running?)
  }

  datatype CancelPhase = BeforeExecution | InterruptRequested | ControlUnavailable | ExecutionTerminated

  datatype Reservation = Pending | Held | Released

  datatype Resources = Resources(cpuMillis: nat, memoryBytes: nat, diskBytes: nat, concurrency: nat)

  datatype Job = Job(
    status: JobStatus,
    requested: bool,
    effective: bool,
    phase: Option<CancelPhase>,
    reservation: Reservation,
    need: Resources,
    createdAt: nat,
    storedAdmission: Option<bool>,
    admission: Option<bool>,
    result: Option<JobStatus>)

  /** Where the task running a job stands; `Idle` is no task at all. */
  datatype Runner =
    | Idle
    | Reserving
    | Admitting
    | Persisting(admits: bool)
    | Denying
    | Registering
    | ToPreparing
    | ToRunning
    | Launching
    | Executing
    | Finished(outcome: Option<JobStatus>)
    | CleaningUp

  /** `control` is the registered control and whether its cancellation flag is set. */
  datatype Slot = Slot(job: Job, runner: Runner, control: Option<bool>, launches: nat)

  /** What `try_reserve` concludes from the capacity and the other jobs. */
  datatype Verdict = Overflow | Impossible | Wait | Grant

  datatype Action =
    | TryReserve(verdict: Verdict)
    | Consult(answer: Option<bool>)
    | PersistAdmission
    | Deny
    | Abort(status: JobStatus)
    | Register
    | Prepare
    | Run
    | CleanUp
    | Launch
    | Finish(outcome: Option<JobStatus>)
    | Record(valid: bool, written: bool)
    | Cancel(captured: bool)
    | Recover(torn: bool)

  function NewSlot(need: Resources, createdAt: nat): Slot {
    Slot(Job(Queued, false, false, None, Pending, need, createdAt, None, None, None), Reserving, None, 0)
  }

  function Release(job: Job): Job {
    job.(reservation := Released)
  }

  /** `transition`: refused for a job that ended and for a step the table does not have. */
  function Transition(job: Job, to: JobStatus): Option<Job> {
    if Terminal(job.status) || !ValidTransition(job.status, to) then None
    else
      var moved := job.(status := to);
      Some(if Terminal(to) then Release(moved) else moved)
  }

  /** Ends the job as `status` unless it already ended; the task is over either way. */
  function GiveUp(s: Slot, status: JobStatus): Slot {
    s.(job := Transition(s.job, status).GetOr(s.job), runner := Idle)
  }

  function Reserve(s: Slot, verdict: Verdict): Slot {
    if Terminal(s.job.status) then
      s.(job := Release(s.job), runner := Idle)
    else if s.job.reservation.Held? then
      s.(runner := Admitting)
    else if s.job.reservation.Released? then
      GiveUp(s, Rejected)
    else match verdict
      case Overflow => GiveUp(s, Rejected)
      case Impossible => s.(job := Release(s.job.(status := Rejected)))
      case Wait => s.(job := s.job.(status := WaitingForCapacity))
      case Grant => s.(job := s.job.(status := Reserved, reservation := Held), runner := Admitting)
  }

  function ConsultAdmission(s: Slot, answer: Option<bool>): Slot {
    if s.job.storedAdmission == Some(true) then
      s.(runner := if s.job.admission.None? then Persisting(true) else Registering)
    else match answer
      case Some(admits) => s.(runner := Persisting(admits))
      case None => GiveUp(s, Rejected)
  }

  function StoreAdmission(s: Slot, admits: bool): Slot {
    if Terminal(s.job.status) || !s.job.reservation.Held? then
      GiveUp(s, Rejected)
    else
      var stored := s.job.(storedAdmission := Some(admits), admission := Some(admits));
      s.(job := if admits then stored.(status := Admitted) else stored,
         runner := if admits then Registering else Denying)
  }

  function Advance(s: Slot, to: JobStatus, next: Runner): Slot {
    match Transition(s.job, to)
    case Some(moved) => s.(job := moved, runner := next)
    case None => s.(runner := CleaningUp)
  }

  /** `persist_result`, and what follows when the evidence is refused. */
  function RecordOutcome(s: Slot, outcome: Option<JobStatus>, valid: bool, written: bool): Slot {
    match outcome
    case None => GiveUp(s, Rejected)
    case Some(status) =>
      if valid then
        var ended := s.job.(result := Some(status), status := status);
        var settled := if status.Cancelled? && s.job.requested
                       then ended.(effective := true, phase := Some(ExecutionTerminated)) else ended;
        s.(job := Release(settled), runner := Idle)
      else
        GiveUp(if written then s.(job := s.job.(result := Some(status))) else s, Failed)
  }

  /** The locked part of `cancel`; `captured` is whether it had found a control before locking. */
  function CancelSlot(s: Slot, captured: bool): Slot {
    if Terminal(s.job.status) then s
    else
      var asked := s.job.(requested := true);
      var job' := if NotYetExecuting(asked.status)
                  then Release(asked.(status := Cancelled, effective := true, phase := Some(BeforeExecution)))
                  else asked.(phase := Some(if captured then InterruptRequested else ControlUnavailable));
      s.(job := job', control := if captured && s.control.Some? then Some(true) else s.control)
  }

  /** A crash and the restart after it. `torn`: the task died between its two durable writes. */
  function RecoverSlot(s: Slot, torn: bool): Slot {
    var job := if torn && s.runner.Persisting? && !Terminal(s.job.status) && s.job.reservation.Held?
               then s.job.(storedAdmission := Some(s.runner.admits))
               else if torn && s.runner.Finished? && s.runner.outcome.Some?
               then s.job.(result := s.runner.outcome)
               else s.job;
    if Terminal(job.status) then
      Slot(Release(job), Idle, None, s.launches)
    else if job.status.Running? then
      Slot(Release(job.(status := job.result.GetOr(Failed))), Idle, None, s.launches)
    else
      Slot(job, Reserving, None, s.launches)
  }

  /** One step of the manager on one job; a step that is not due changes nothing. */
  function Act(s: Slot, action: Action): Slot {
    match action
    case TryReserve(verdict) => if s.runner.Reserving? then Reserve(s, verdict) else s
    case Consult(answer) => if s.runner.Admitting? then ConsultAdmission(s, answer) else s
    case PersistAdmission => if s.runner.Persisting? then StoreAdmission(s, s.runner.admits) else s
    case Deny => if s.runner.Denying? then GiveUp(s, Rejected) else s
    case Abort(status) =>
      if (s.runner.Admitting? || s.runner.Registering?) && (status.Rejected? || status.Failed?)
      then GiveUp(s, status) else s
    case Register => if s.runner.Registering? then s.(control := Some(false), runner := ToPreparing) else s
    case Prepare => if s.runner.ToPreparing? then Advance(s, Preparing, ToRunning) else s
    case Run => if s.runner.ToRunning? then Advance(s, Running, Launching) else s
    case CleanUp => if s.runner.CleaningUp? then s.(job := Release(s.job), control := None, runner := Idle) else s
    case Launch => if s.runner.Launching? then s.(runner := Executing, launches := s.launches + 1) else s
    case Finish(outcome) =>
      if s.runner.Executing? && (outcome.Some? ==> ExecutionStatus(outcome.value))
      then s.(control := None, runner := Finished(outcome)) else s
    case Record(valid, written) =>
      if s.runner.Finished? then RecordOutcome(s, s.runner.outcome, valid, written) else s
    case Cancel(captured) => CancelSlot(s, captured)
    case Recover(torn) => RecoverSlot(s, torn)
  }

  /** The statuses a job may have while its task holds a reservation and has not launched. */
  predicate HoldsUnlaunched(job: Job) {
    (job.status.Reserved? || job.status.Admitted? || job.status.Preparing?) && job.reservation.Held?
  }

  /** No task runs the job and none will before a restart, although it never ended. */
  predicate Wedged(s: Slot) {
    s.runner.Idle? && s.job.status.Preparing? && s.job.reservation.Released? && s.launches == 0
  }

  predicate AdmissionStored(job: Job) {
    job.storedAdmission == Some(true) && job.admission.Some?
  }

  /** What the task's position says about the record. */
  predicate RunnerFits(s: Slot) {
    var job := s.job;
    match s.runner
    case Idle => s.control.None? && (Terminal(job.status) || Wedged(s))
    case Reserving => s.control.None? && !job.status.Running?
    case Admitting =>
      s.control.None? && (Terminal(job.status) || HoldsUnlaunched(job)) && s.launches == 0
    case Persisting(_) | Denying =>
      s.control.None? && (Terminal(job.status) || (job.status.Reserved? && job.reservation.Held?)) && s.launches == 0
    case Registering =>
      s.control.None? && (Terminal(job.status) || HoldsUnlaunched(job)) && s.launches == 0 && AdmissionStored(job)
    case ToPreparing =>
      s.control.Some? && (Terminal(job.status) || HoldsUnlaunched(job)) && s.launches == 0 && AdmissionStored(job)
    case ToRunning => s.control.Some? && job.status.Preparing? && job.reservation.Held?
    case Launching => s.control.Some? && job.status.Running? && job.reservation.Held? && s.launches == 0
    case Executing => s.control.Some? && job.status.Running? && job.reservation.Held? && s.launches == 1 && job.result.None?
    case Finished(outcome) =>
      && s.control.None? && job.status.Running? && job.reservation.Held? && s.launches == 1 && job.result.None?
      && (outcome.Some? ==> ExecutionStatus(outcome.value))
    case CleaningUp =>
      s.control.Some? && s.launches == 0 && (Terminal(job.status) || (job.status.Preparing? && job.reservation.Held?))
  }

  /** What the record says about itself and about what was executed. */
  predicate RecordFits(s: Slot) {
    var job := s.job;
    && (Terminal(job.status) ==> job.reservation.Released?)
    && (job.reservation.Held? ==> HoldsUnlaunched(job) || job.status.Running?)
    && (job.reservation.Pending? ==> job.status.Created? || job.status.Accepted? || job.status.Queued? || job.status.WaitingForCapacity?)
    && (job.reservation.Released? ==> Terminal(job.status) || job.status.Preparing?)
    && s.launches <= 1
    && (s.launches == 1 ==> job.status.Running? || Terminal(job.status))
    && (job.status.Running? ==> s.runner.Launching? || s.runner.Executing? || s.runner.Finished?)
    && (job.phase == Some(BeforeExecution) <==> job.status.Cancelled? && s.launches == 0)
    && (s.launches == 1 || job.status.Admitted? || job.status.Preparing? || job.status.Running? ==> AdmissionStored(job))
    && (job.status.Succeeded? || job.status.TimedOut? ==> s.launches == 1)
    && (job.result.Some? ==> s.launches == 1 && ExecutionStatus(job.result.value))
  }

  predicate SlotInv(s: Slot) {
    RecordFits(s) && RunnerFits(s)
  }

  lemma NewSlotHoldsInvariant(need: Resources, createdAt: nat)
    ensures SlotInv(NewSlot(need, createdAt))
  {
  }

  /** Every step of the manager, crashes included, keeps the invariant. */
  lemma ActKeepsInvariant(s: Slot, action: Action)
    requires SlotInv(s)
    ensures SlotInv(Act(s, action))
  {
    match action
    case TryReserve(verdict) => ReserveKeepsInvariant(s, verdict);
    case Consult(answer) => AdmissionKeepsInvariant(s, answer);
    case PersistAdmission => AdmissionKeepsInvariant(s, None);
    case Record(valid, written) => RecordKeepsInvariant(s, valid, written);
    case Cancel(captured) => CancelKeepsInvariant(s, captured);
    case Recover(torn) => RecoverKeepsInvariant(s, torn);
    case _ =>
  }

  lemma ReserveKeepsInvariant(s: Slot, verdict: Verdict)
    requires SlotInv(s)
    ensures SlotInv(Act(s, TryReserve(verdict)))
  {
  }

  lemma AdmissionKeepsInvariant(s: Slot, answer: Option<bool>)
    requires SlotInv(s)
    ensures SlotInv(Act(s, Consult(answer))) && SlotInv(Act(s, PersistAdmission))
  {
  }

  lemma RecordKeepsInvariant(s: Slot, valid: bool, written: bool)
    requires SlotInv(s)
    ensures SlotInv(Act(s, Record(valid, written)))
  {
    if s.runner.Finished? && s.runner.outcome.Some? {
      if valid {
        ResultKeepsInvariant(s, s.runner.outcome.value, written);
      } else {
        RefusedResultKeepsInvariant(s, s.runner.outcome.value, written);
      }
    }
  }

  lemma ResultKeepsInvariant(s: Slot, status: JobStatus, written: bool)
    requires SlotInv(s) && s.runner == Finished(Some(status))
    ensures SlotInv(RecordOutcome(s, Some(status), true, written))
  {
  }

  lemma RefusedResultKeepsInvariant(s: Slot, status: JobStatus, written: bool)
    requires SlotInv(s) && s.runner == Finished(Some(status))
    ensures SlotInv(RecordOutcome(s, Some(status), false, written))
  {
  }

  lemma CancelKeepsInvariant(s: Slot, captured: bool)
    requires SlotInv(s)
    ensures SlotInv(CancelSlot(s, captured))
  {
  }

  lemma RecoverKeepsInvariant(s: Slot, torn: bool)
    requires SlotInv(s)
    ensures SlotInv(RecoverSlot(s, torn))
  {
  }

  /** What a client can read of a record and what really happened to the job. */
  datatype Fate = Fate(status: JobStatus, phase: Option<CancelPhase>, launches: nat)

  function FateOf(s: Slot): Fate {
    Fate(s.job.status, s.job.phase, s.launches)
  }

  /** A job that ended keeps its status, its phase and what was executed of it. */
  lemma EndedIsFrozen(s: Slot, action: Action)
    requires SlotInv(s) && Terminal(s.job.status)
    ensures FateOf(Act(s, action)) == FateOf(s)
  {
  }

  /** Nothing but a restart moves a wedged job. */
  lemma WedgedStays(s: Slot, action: Action)
    requires Wedged(s) && s.control.None? && !action.Recover?
    ensures Wedged(Act(s, action)) && Act(s, action).control.None?
  {
  }

  // ---- What can still execute -------------------------------------------

  /** The task executes, or is past the point of no return, and nothing has asked the execution to stop. */
  predicate Unasked(s: Slot) {
    (s.runner.Launching? || s.runner.Executing?) && s.control.Some? && !s.control.value
  }

  /** Left alone, the task executes without having been asked to stop. */
  predicate AboutToExecute(s: Slot) {
    (s.runner.ToRunning? || s.runner.Launching? || s.runner.Executing?) && s.control.Some? && !s.control.value
  }

  /** Whatever happens, restarts included, nothing of the job will execute without having been asked to stop. */
  predicate Stopped(s: Slot) {
    || Terminal(s.job.status)
    || s.runner.Finished?
    || ((s.runner.ToRunning? || s.runner.Launching? || s.runner.Executing?) && s.control.Some? && s.control.value)
    || (s.job.status.Preparing? && !s.runner.ToRunning?)
  }

  lemma StoppedStays(s: Slot, action: Action)
    requires SlotInv(s) && Stopped(s)
    ensures Stopped(Act(s, action))
  {
    if Terminal(s.job.status) {
      EndedStays(s, action);
    } else if action.Recover? {
      RecoveredIsStopped(s, action.torn);
    }
  }

  lemma EndedStays(s: Slot, action: Action)
    requires SlotInv(s) && Terminal(s.job.status)
    ensures Terminal(Act(s, action).job.status)
  {
    EndedIsFrozen(s, action);
  }

  lemma RecoveredIsStopped(s: Slot, torn: bool)
    requires SlotInv(s) && Stopped(s) && !Terminal(s.job.status)
    ensures Stopped(Act(s, Recover(torn)))
  {
  }

  lemma StoppedIsAsked(s: Slot)
    requires SlotInv(s) && Stopped(s)
    ensures !Unasked(s)
  {
  }

  /** A control found before the lock is still there, or the execution it belonged to is over. */
  predicate FoundControl(s: Slot) {
    s.control.Some? || s.runner.Finished? || s.runner.Idle?
  }

  lemma FoundControlStays(s: Slot, action: Action)
    requires SlotInv(s) && FoundControl(s) && !action.Recover?
    ensures FoundControl(Act(s, action))
  {
  }

  lemma CancelStops(s: Slot, captured: bool)
    requires SlotInv(s) && (captured ==> FoundControl(s)) && (captured || !AboutToExecute(s))
    ensures Stopped(Act(s, Cancel(captured)))
  {
  }

  /** Nothing of the job was executed and nothing will be. */
  predicate Spent(s: Slot) {
    s.launches == 0 && (Terminal(s.job.status) || (s.job.status.Preparing? && !s.runner.ToRunning?))
  }

  lemma SpentStays(s: Slot, action: Action)
    requires SlotInv(s) && Spent(s)
    ensures Spent(Act(s, action))
  {
  }

  /** A job that is preparing does so for the first time. */
  predicate PreparesOnce(s: Slot) {
    s.job.status.Preparing? ==> s.runner.ToRunning?
  }

  lemma PreparesOnceStays(s: Slot, action: Action)
    requires SlotInv(s) && PreparesOnce(s) && (action.Recover? ==> !s.job.status.Preparing?)
    ensures PreparesOnce(Act(s, action))
  {
  }

  // ---- What the task was told -------------------------------------------

  /** No admission of the job is stored, and none is about to be. */
  predicate Unadmitted(s: Slot) {
    s.job.storedAdmission != Some(true) && s.job.admission != Some(true) && s.runner != Persisting(true)
  }

  lemma AdmittedOnlyByAnswer(s: Slot, action: Action)
    requires SlotInv(s) && Unadmitted(s) && action != Consult(Some(true))
    ensures Unadmitted(Act(s, action))
  {
    match action
    case TryReserve(verdict) => ReserveAdmitsNothing(s, verdict);
    case Consult(answer) => DenialAdmitsNothing(s, answer);
    case PersistAdmission => StoringAdmitsNothing(s);
    case Record(valid, written) => RecordAdmitsNothing(s, valid, written);
    case Cancel(captured) => CancelAdmitsNothing(s, captured);
    case Recover(torn) => RecoverAdmitsNothing(s, torn);
    case _ => hide SlotInv;
  }

  lemma ReserveAdmitsNothing(s: Slot, verdict: Verdict)
    requires Unadmitted(s)
    ensures Unadmitted(Act(s, TryReserve(verdict)))
  {
  }

  lemma DenialAdmitsNothing(s: Slot, answer: Option<bool>)
    requires Unadmitted(s) && answer != Some(true)
    ensures Unadmitted(Act(s, Consult(answer)))
  {
  }

  lemma StoringAdmitsNothing(s: Slot)
    requires Unadmitted(s)
    ensures Unadmitted(Act(s, PersistAdmission))
  {
  }

  lemma RecordAdmitsNothing(s: Slot, valid: bool, written: bool)
    requires Unadmitted(s)
    ensures Unadmitted(Act(s, Record(valid, written)))
  {
  }

  lemma CancelAdmitsNothing(s: Slot, captured: bool)
    requires Unadmitted(s)
    ensures Unadmitted(Act(s, Cancel(captured)))
  {
  }

  lemma RecoverAdmitsNothing(s: Slot, torn: bool)
    requires Unadmitted(s)
    ensures Unadmitted(Act(s, Recover(torn)))
  {
  }

  lemma UnadmittedDoesNotRun(s: Slot)
    requires SlotInv(s) && Unadmitted(s)
    ensures s.launches == 0 && !s.job.status.Admitted? && !s.job.status.Preparing? && !s.job.status.Running?
  {
  }

  /** A denial is stored as one and ends the job as rejected, before anything executes. */
  lemma DenialIsRejected(s: Slot)
    requires SlotInv(s) && s.runner.Admitting? && s.job.status.Reserved? && s.job.storedAdmission != Some(true)
    ensures var stored := Act(Act(s, Consult(Some(false))), PersistAdmission);
            && stored.job.storedAdmission == Some(false) && stored.job.admission == Some(false)
            && Act(stored, Deny).job.status.Rejected? && Act(stored, Deny).runner.Idle?
            && Act(stored, Deny).launches == 0 && Act(stored, Deny).job.reservation.Released?
  {
  }

  /** No execution of the job has ended as `status`, and nothing says that one has. */
  predicate NotEndedAs(s: Slot, status: JobStatus) {
    s.runner != Finished(Some(status)) && s.job.result != Some(status) && !(s.job.status == status && s.launches == 1)
  }

  lemma EndsOnlyAsExecuted(s: Slot, action: Action, status: JobStatus)
    requires SlotInv(s) && NotEndedAs(s, status) && action != Finish(Some(status))
    requires ExecutionStatus(status) && !status.Failed?
    ensures NotEndedAs(Act(s, action), status)
  {
    match action
    case TryReserve(verdict) => ReserveEndsNothing(s, verdict, status);
    case Record(valid, written) => RecordsItsEnd(s, valid, written, status);
    case Cancel(captured) => CancelEndsNoExecution(s, captured, status);
    case Recover(torn) => RecoverEndsAsRecorded(s, torn, status);
    case _ =>
  }

  lemma ReserveEndsNothing(s: Slot, verdict: Verdict, status: JobStatus)
    requires SlotInv(s) && NotEndedAs(s, status) && ExecutionStatus(status) && !status.Failed?
    ensures NotEndedAs(Act(s, TryReserve(verdict)), status)
  {
  }

  lemma RecordsItsEnd(s: Slot, valid: bool, written: bool, status: JobStatus)
    requires SlotInv(s) && NotEndedAs(s, status) && ExecutionStatus(status) && !status.Failed?
    ensures NotEndedAs(Act(s, Record(valid, written)), status)
  {
  }

  lemma CancelEndsNoExecution(s: Slot, captured: bool, status: JobStatus)
    requires SlotInv(s) && NotEndedAs(s, status)
    ensures NotEndedAs(Act(s, Cancel(captured)), status)
  {
  }

  lemma RecoverEndsAsRecorded(s: Slot, torn: bool, status: JobStatus)
    requires SlotInv(s) && NotEndedAs(s, status) && ExecutionStatus(status) && !status.Failed?
    ensures NotEndedAs(Act(s, Recover(torn)), status)
  {
  }

  /**
   What an execution ended with is what is recorded, also when the manager crashes between writing the result and the
   record; evidence that is refused, or a crash before anything was written, makes it a failure. A result that was
   written stays beside the failure. An execution that ended cancelled counts as the effect of a cancellation exactly
   when one was requested.
   */
  lemma EndIsRecorded(s: Slot, status: JobStatus, written: bool)
    requires SlotInv(s) && s.runner.Executing? && ExecutionStatus(status)
    ensures var finished := Act(s, Finish(Some(status)));
            && Act(finished, Record(true, written)).job.status == status
            && Act(finished, Record(false, written)).job.status.Failed?
            && Act(finished, Recover(true)).job.status == status
            && Act(finished, Recover(false)).job.status.Failed?
            && Act(finished, Record(true, written)).job.result == Some(status)
            && Act(finished, Record(false, written)).job.result == (if written then Some(status) else None)
            && (status.Cancelled? && s.job.requested ==>
                  var ended := Act(finished, Record(true, written)).job;
                  ended.effective && ended.phase == Some(ExecutionTerminated))
    ensures Act(Act(s, Finish(None)), Record(true, written)).job.status.Rejected?
  {
    RecordedEnd(Act(s, Finish(Some(status))), status, written);
    RecoveredEnd(Act(s, Finish(Some(status))), status);
  }

  lemma RecordedEnd(s: Slot, status: JobStatus, written: bool)
    requires s.runner == Finished(Some(status)) && s.job.status.Running? && s.job.result.None?
    ensures Act(s, Record(true, written)).job.status == status && Act(s, Record(true, written)).job.result == Some(status)
    ensures Act(s, Record(false, written)).job.status.Failed?
    ensures Act(s, Record(false, written)).job.result == if written then Some(status) else None
    ensures status.Cancelled? && s.job.requested ==>
              var ended := Act(s, Record(true, written)).job; ended.effective && ended.phase == Some(ExecutionTerminated)
  {
  }

  lemma RecoveredEnd(s: Slot, status: JobStatus)
    requires s.runner == Finished(Some(status)) && s.job.status.Running? && s.job.result.None?
    ensures Act(s, Recover(true)).job.status == status && Act(s, Recover(false)).job.status.Failed?
  {
  }

  /**
   A cancellation that took effect was asked for, and what the record says of it is true: before execution it took
   effect at once, and an interrupt that was requested has reached the control of what is still to execute.
   */
  predicate EffectFits(s: Slot) {
    && (s.job.effective ==> s.job.status.Cancelled? && s.job.requested)
    && (s.job.phase.Some? ==> s.job.requested && !NotYetExecuting(s.job.status))
    && (s.job.phase == Some(ExecutionTerminated) ==> s.job.effective && s.launches == 1)
    && (s.job.phase == Some(BeforeExecution) ==> s.job.effective)
    && (s.control == Some(true) ==> s.job.requested)
    && (s.job.phase == Some(InterruptRequested) && (s.runner.ToRunning? || s.runner.Launching? || s.runner.Executing?)
        ==> s.control == Some(true))
  }

  lemma EffectStaysFitting(s: Slot, action: Action)
    requires SlotInv(s) && EffectFits(s) && (action == Cancel(true) ==> FoundControl(s))
    ensures EffectFits(Act(s, action))
  {
    match action
    case Record(valid, written) => RecordStaysFitting(s, valid, written);
    case Cancel(captured) => CancelStaysFitting(s, captured);
    case Recover(torn) => RecoverStaysFitting(s, torn);
    case _ =>
  }

  lemma RecordStaysFitting(s: Slot, valid: bool, written: bool)
    requires SlotInv(s) && EffectFits(s)
    ensures EffectFits(Act(s, Record(valid, written)))
  {
  }

  lemma CancelStaysFitting(s: Slot, captured: bool)
    requires SlotInv(s) && EffectFits(s) && (captured ==> FoundControl(s))
    ensures EffectFits(Act(s, Cancel(captured)))
  {
  }

  lemma RecoverStaysFitting(s: Slot, torn: bool)
    requires SlotInv(s) && EffectFits(s)
    ensures EffectFits(Act(s, Recover(torn)))
  {
  }

  /** A cancellation of a job that has not ended is noted whatever it finds. */
  lemma CancelIsNoted(s: Slot, captured: bool)
    requires SlotInv(s) && !Terminal(s.job.status)
    ensures Act(s, Cancel(captured)).job.requested && Act(s, Cancel(captured)).job.phase.Some?
    ensures Act(s, Cancel(captured)).job.phase == Some(ControlUnavailable) <==> !captured && (s.job.status.Preparing? || s.job.status.Running?)
  {
  }

  // ---- The task comes to an end -----------------------------------------

  /** The most steps the task still has to take, not counting the times it is told to wait. */
  function Remaining(s: Slot): nat {
    match s.runner
    case Idle => 0
    case CleaningUp | Finished(_) | Denying => 1
    case Executing => 2
    case Launching => 3
    case ToRunning => 4
    case ToPreparing => 5
    case Registering => 6
    case Persisting(_) => 7
    case Admitting => 8
    case Reserving => if Terminal(s.job.status) then 9 else 10
  }

  /** The job waits for capacity. */
  predicate Waits(s: Slot) {
    s.runner.Reserving? && s.job.reservation.Pending? && !Terminal(s.job.status)
  }

  /** It is the task's turn to take this step, and it is not told to wait. */
  predicate Due(s: Slot, action: Action) {
    match action
    case TryReserve(verdict) => s.runner.Reserving? && !(verdict.Wait? && Waits(s))
    case Consult(_) => s.runner.Admitting?
    case PersistAdmission => s.runner.Persisting?
    case Deny => s.runner.Denying?
    case Abort(status) => (s.runner.Admitting? || s.runner.Registering?) && (status.Rejected? || status.Failed?)
    case Register => s.runner.Registering?
    case Prepare => s.runner.ToPreparing?
    case Run => s.runner.ToRunning?
    case CleanUp => s.runner.CleaningUp?
    case Launch => s.runner.Launching?
    case Finish(outcome) => s.runner.Executing? && (outcome.Some? ==> ExecutionStatus(outcome.value))
    case Record(_, _) => s.runner.Finished?
    case Cancel(_) | Recover(_) => false
  }

  lemma DueStepAdvances(s: Slot, action: Action)
    requires SlotInv(s) && Due(s, action)
    ensures Remaining(Act(s, action)) < Remaining(s)
  {
  }

  lemma NothingGoesBack(s: Slot, action: Action)
    requires SlotInv(s) && !action.Recover?
    ensures Remaining(Act(s, action)) <= Remaining(s)
  {
    if Due(s, action) { DueStepAdvances(s, action); }
  }

  /** A task that is not over and does not wait has a step to take. */
  lemma SomeStepIsDue(s: Slot) returns (action: Action)
    requires !s.runner.Idle? && !Waits(s)
    ensures Due(s, action)
  {
    match s.runner
    case Reserving => action := TryReserve(Wait);
    case Admitting => action := Consult(None);
    case Persisting(_) => action := PersistAdmission;
    case Denying => action := Deny;
    case Registering => action := Register;
    case ToPreparing => action := Prepare;
    case ToRunning => action := Run;
    case Launching => action := Launch;
    case Executing => action := Finish(None);
    case Finished(_) => action := Record(true, true);
    case CleaningUp => action := CleanUp;
  }

  /** The job is recorded as failed although nothing of it was executed. */
  predicate FailedUnexecuted(s: Slot) {
    s.job.status.Failed? && s.launches == 0
  }

  /** The two ways to that: no directory for its logs, or a crash between entering `running` and the execution. */
  predicate FailsUnexecuted(s: Slot, action: Action) {
    action == Abort(Failed) || (action.Recover? && s.runner.Launching?)
  }

  lemma FailsOnlySo(s: Slot, action: Action)
    requires SlotInv(s) && !FailedUnexecuted(s) && !FailsUnexecuted(s, action)
    ensures !FailedUnexecuted(Act(s, action))
  {
  }

  /** Otherwise what the task gives up with is recorded, the reservation is given back, and the task is over. */
  lemma AbortIsRecorded(s: Slot, status: JobStatus)
    requires SlotInv(s) && Due(s, Abort(status)) && !Terminal(s.job.status)
    ensures var after := Act(s, Abort(status));
            after.job.status == status && after.job.reservation.Released? && after.runner.Idle? && after.launches == 0
  {
  }

  /** A task whose job was ended under it stores nothing more and goes away. */
  lemma EndedTaskStoresNothing(s: Slot, action: Action)
    requires SlotInv(s) && Terminal(s.job.status) && s.job.storedAdmission.None? && !action.Recover?
    ensures Act(s, action).job == s.job
  {
  }

  /**
   An admission that reached the disk before a crash is found there: after the restart no answer of the policy is
   asked for, or used. A denial that did is asked again.
   */
  lemma StoredAdmissionSurvives(s: Slot, verdict: Verdict, answer: bool)
    requires SlotInv(s) && s.runner.Persisting? && s.job.status.Reserved?
    ensures var asked := Act(Act(Act(s, Recover(true)), TryReserve(verdict)), Consult(Some(answer)));
            if s.runner.admits then asked.runner == Persisting(true) || asked.runner.Registering?
            else asked.runner == Persisting(answer)
  {
  }

  lemma RequestIsConstant(s: Slot, action: Action)
    ensures Act(s, action).job.need == s.job.need && Act(s, action).job.createdAt == s.job.createdAt
  {
  }
}
