/**
 The provider's job manager: every job it keeps, the capacity they share, the
 cancellations in progress, and crashes.

 `Apply` is one atomic step; a run is any sequence of steps, so the interleaving
 of tasks, cancellations, submissions and restarts is arbitrary.
 */
module JobServer {
  import opened Options
  import opened JobRecord

  type JobId = nat
  type CallId = nat

  const U64_MAX: nat := 0xFFFF_FFFF_FFFF_FFFF

  // ---- Capacity ---------------------------------------------------------

  const NOTHING := Resources(0, 0, 0, 0)

  function Add(a: Resources, b: Resources): Resources {
    Resources(a.cpuMillis + b.cpuMillis, a.memoryBytes + b.memoryBytes, a.diskBytes + b.diskBytes, a.concurrency + b.concurrency)
  }

  lemma AddAssociates(a: Resources, b: Resources, c: Resources)
    ensures Add(a, Add(b, c)) == Add(Add(a, b), c)
    ensures Add(a, NOTHING) == a == Add(NOTHING, a)
  {
  }

  lemma AddSwaps(a: Resources, b: Resources, c: Resources)
    ensures Add(a, Add(b, c)) == Add(b, Add(a, c))
  {
  }

  /** Nothing added later undoes an overflow. */
  lemma SumStays(a: Resources, b: Resources, c: Resources)
    ensures Fits(Add(a, Add(b, c)), WORD) ==> Fits(Add(a, b), WORD)
  {
  }

  predicate Fits(a: Resources, b: Resources) {
    a.cpuMillis <= b.cpuMillis && a.memoryBytes <= b.memoryBytes && a.diskBytes <= b.diskBytes && a.concurrency <= b.concurrency
  }

  const WORD := Resources(U64_MAX, U64_MAX, U64_MAX, U64_MAX)

  /** `checked_add` on each component of 64-bit resources. */
  function CheckedAdd(a: Resources, b: Resources): Option<Resources> {
    if Fits(Add(a, b), WORD) then Some(Add(a, b)) else None
  }

  function SaturatingSub(a: nat, b: nat): nat {
    if b <= a then a - b else 0
  }

  function Available(capacity: Resources, reserved: Resources): Resources {
    Resources(SaturatingSub(capacity.cpuMillis, reserved.cpuMillis),
              SaturatingSub(capacity.memoryBytes, reserved.memoryBytes),
              SaturatingSub(capacity.diskBytes, reserved.diskBytes),
              SaturatingSub(capacity.concurrency, reserved.concurrency))
  }

  /** What a job takes from the capacity now. */
  function Use(s: Slot): Resources {
    if s.job.reservation.Held? then s.job.need else NOTHING
  }

  ghost function Pick(slots: map<JobId, Slot>): (j: JobId)
    requires |slots| > 0
    ensures j in slots
  {
    assert slots.Keys != {};
    var j :| j in slots; j
  }

  /** What all jobs together take. */
  ghost function Total(slots: map<JobId, Slot>): Resources
    decreases |slots|
  {
    if |slots| == 0 then NOTHING
    else
      var j := Pick(slots);
      assert (slots - {j}).Keys == slots.Keys - {j};
      Add(Use(slots[j]), Total(slots - {j}))
  }

  lemma {:induction false} TotalSplits(slots: map<JobId, Slot>, j: JobId)
    requires j in slots
    ensures Total(slots) == Add(Use(slots[j]), Total(slots - {j}))
    decreases |slots|
  {
    hide Use, Add;
    var k := Pick(slots);
    if k != j {
      AddSwaps(Use(slots[k]), Use(slots[j]), Total(slots - {k} - {j}));
      assert (slots - {k}).Keys == slots.Keys - {k};
      assert (slots - {j}).Keys == slots.Keys - {j};
      TotalSplits(slots - {k}, j);
      TotalSplits(slots - {j}, k);
      assert slots - {k} - {j} == slots - {j} - {k};
    }
  }

  lemma TotalAfterUpdate(slots: map<JobId, Slot>, j: JobId, slot: Slot)
    ensures Total(slots[j := slot]) == Add(Use(slot), Total(slots - {j}))
  {
    TotalSplits(slots[j := slot], j);
    assert slots[j := slot] - {j} == slots - {j};
  }

  /** Replacing slots by ones that take no more takes no more in total. */
  lemma {:induction false} TotalIsMonotone(small: map<JobId, Slot>, large: map<JobId, Slot>)
    requires small.Keys == large.Keys
    requires forall j | j in small :: Fits(Use(small[j]), Use(large[j]))
    ensures Fits(Total(small), Total(large))
    decreases |large|
  {
    if |large| > 0 {
      var j := Pick(large);
      TotalSplits(small, j);
      TotalSplits(large, j);
      assert (large - {j}).Keys == large.Keys - {j} == (small - {j}).Keys;
      TotalIsMonotone(small - {j}, large - {j});
    } else {
      assert |small.Keys| == 0;
    }
  }

  ghost predicate Enumerates(listing: seq<JobId>, keys: set<JobId>) {
    && (forall i, k | 0 <= i < k < |listing| :: listing[i] != listing[k])
    && (forall j :: j in listing <==> j in keys)
  }

  /** The jobs of a listing from position `i` on. */
  ghost function Rest(slots: map<JobId, Slot>, listing: seq<JobId>, i: nat): map<JobId, Slot>
    requires i <= |listing|
  {
    map j | j in slots && j in listing[i..] :: slots[j]
  }

  lemma RestAdvances(slots: map<JobId, Slot>, listing: seq<JobId>, i: nat)
    requires Enumerates(listing, slots.Keys) && i < |listing|
    ensures listing[i] in slots
    ensures Total(Rest(slots, listing, i)) == Add(Use(slots[listing[i]]), Total(Rest(slots, listing, i + 1)))
  {
    hide Total;
    var rest := Rest(slots, listing, i);
    assert listing[i..] == [listing[i]] + listing[i + 1..];
    assert rest - {listing[i]} == Rest(slots, listing, i + 1);
    TotalSplits(rest, listing[i]);
  }

  lemma RestEnds(slots: map<JobId, Slot>, listing: seq<JobId>)
    requires Enumerates(listing, slots.Keys)
    ensures Rest(slots, listing, 0) == slots
    ensures Total(Rest(slots, listing, |listing|)) == NOTHING
  {
    assert Rest(slots, listing, |listing|) == map[];
  }

  /**
   `capacity_snapshot_locked`: the directory is read in whatever order it lists,
   and the sum of what is reserved does not depend on that order.
   */
  method ReservedNow(slots: map<JobId, Slot>, listing: seq<JobId>) returns (reserved: Option<Resources>)
    requires Enumerates(listing, slots.Keys)
    ensures Fits(Total(slots), WORD) ==> reserved == Some(Total(slots))
    ensures !Fits(Total(slots), WORD) ==> reserved == None
  {
    hide Total, Rest, Enumerates, Add;
    var sum := NOTHING;
    RestEnds(slots, listing);
    AddAssociates(Total(slots), NOTHING, NOTHING);
    for i := 0 to |listing|
      invariant Fits(sum, WORD)
      invariant Total(slots) == Add(sum, Total(Rest(slots, listing, i)))
    {
      RestAdvances(slots, listing, i);
      AddAssociates(sum, Use(slots[listing[i]]), Total(Rest(slots, listing, i + 1)));
      AddAssociates(sum, NOTHING, NOTHING);
      SumStays(sum, Use(slots[listing[i]]), Total(Rest(slots, listing, i + 1)));
      var job := slots[listing[i]];
      if job.job.reservation.Held? {
        match CheckedAdd(sum, job.job.need) {
          case None => return None;
          case Some(next) => sum := next;
        }
      }
    }
    AddAssociates(sum, NOTHING, NOTHING);
    return Some(sum);
  }

  // ---- Who is next ------------------------------------------------------

  predicate Older(slots: map<JobId, Slot>, a: JobId, b: JobId)
    requires a in slots && b in slots
  {
    slots[a].job.createdAt < slots[b].job.createdAt || (slots[a].job.createdAt == slots[b].job.createdAt && a < b)
  }

  /** A job that waits for capacity and could use what is available now. */
  predicate Fitting(slots: map<JobId, Slot>, available: Resources, j: JobId)
    requires j in slots
  {
    !Terminal(slots[j].job.status) && slots[j].job.reservation.Pending? && Fits(slots[j].job.need, available)
  }

  predicate OldestFitting(slots: map<JobId, Slot>, available: Resources, j: JobId)
    requires j in slots
  {
    Fitting(slots, available, j) && forall k | k in slots && k != j && Fitting(slots, available, k) :: Older(slots, j, k)
  }

  /** `next_fitting_job_locked`: the one oldest fitting job, whatever order the directory lists. */
  method NextFitting(slots: map<JobId, Slot>, listing: seq<JobId>, available: Resources) returns (next: Option<JobId>)
    requires Enumerates(listing, slots.Keys)
    ensures next.Some? ==> next.value in slots && OldestFitting(slots, available, next.value)
    ensures next.None? ==> forall j | j in slots :: !Fitting(slots, available, j)
  {
    next := None;
    for i := 0 to |listing|
      invariant next.Some? ==> next.value in listing[..i] && Fitting(slots, available, next.value)
      invariant forall k | k in listing[..i] && Fitting(slots, available, k) ::
                  next.Some? && (k == next.value || Older(slots, next.value, k))
    {
      var j := listing[i];
      assert listing[..i + 1] == listing[..i] + [j];
      if Fitting(slots, available, j) && (next.None? || Older(slots, j, next.value)) {
        next := Some(j);
      }
    }
    assert listing[..|listing|] == listing;
  }

  // ---- Steps ------------------------------------------------------------

  /** A cancellation that has looked for the job's control and not yet taken the lock. */
  datatype Call = Call(job: JobId, captured: bool)

  datatype Server = Server(capacity: Resources, slots: map<JobId, Slot>, calls: map<CallId, Call>)

  datatype Step =
    | Submit(job: JobId, need: Resources, createdAt: nat)
    | Task(job: JobId, action: Action)
    | BeginCancel(call: CallId, job: JobId)
    | FinishCancel(call: CallId)
    | Restart(torn: Option<JobId>)

  ghost function VerdictFor(s: Server, j: JobId): Verdict
    requires j in s.slots
  {
    var reserved := Total(s.slots);
    var need := s.slots[j].job.need;
    if !Fits(reserved, WORD) then Overflow
    else if !Fits(need, s.capacity) then Impossible
    else if !Fits(need, Available(s.capacity, reserved)) || !OldestFitting(s.slots, Available(s.capacity, reserved), j) then Wait
    else if !Fits(Add(reserved, need), WORD) then Overflow
    else Grant
  }

  lemma OldestIsOne(slots: map<JobId, Slot>, available: Resources, a: JobId, b: JobId)
    requires a in slots && b in slots && OldestFitting(slots, available, a) && OldestFitting(slots, available, b)
    ensures a == b
  {
  }

  /**
   The decision of `try_reserve`, from one listing for the sum and another for the queue: it is the same whatever
   orders the directory lists.
   */
  method TryReserveNow(s: Server, j: JobId, listing: seq<JobId>, again: seq<JobId>) returns (verdict: Verdict)
    requires j in s.slots && Enumerates(listing, s.slots.Keys) && Enumerates(again, s.slots.Keys)
    ensures verdict == VerdictFor(s, j)
  {
    hide Total, Enumerates, OldestFitting, Fitting;
    var before := ReservedNow(s.slots, listing);
    if before.None? { return Overflow; }
    var need := s.slots[j].job.need;
    if !Fits(need, s.capacity) { return Impossible; }
    var available := Available(s.capacity, before.value);
    if !Fits(need, available) { return Wait; }
    var next := NextFitting(s.slots, again, available);
    if OldestFitting(s.slots, available, j) {
      OldestFits(s.slots, available, j);
      if next.Some? { OldestIsOne(s.slots, available, next.value, j); }
    }
    if next != Some(j) { return Wait; }
    var reserved := CheckedAdd(before.value, need);
    return if reserved.None? then Overflow else Grant;
  }

  lemma OldestFits(slots: map<JobId, Slot>, available: Resources, j: JobId)
    requires j in slots && OldestFitting(slots, available, j)
    ensures Fitting(slots, available, j)
  {
  }

  /** The step a task takes, with the verdict `try_reserve` would reach in this state. */
  ghost function Resolve(s: Server, j: JobId, action: Action): Action
    requires j in s.slots
  {
    if action.TryReserve? then TryReserve(VerdictFor(s, j)) else action
  }

  predicate TaskAction(action: Action) {
    !action.Cancel? && !action.Recover?
  }

  ghost function Apply(s: Server, step: Step): Server {
    match step
    case Submit(j, need, at) =>
      if j in s.slots then s else s.(slots := s.slots[j := NewSlot(need, at)])
    case Task(j, action) =>
      if j in s.slots && TaskAction(action)
      then s.(slots := s.slots[j := Act(s.slots[j], Resolve(s, j, action))]) else s
    case BeginCancel(c, j) =>
      if j in s.slots && c !in s.calls
      then s.(calls := s.calls[c := Call(j, s.slots[j].control.Some?)]) else s
    case FinishCancel(c) =>
      if c in s.calls && s.calls[c].job in s.slots
      then s.(slots := s.slots[s.calls[c].job := Act(s.slots[s.calls[c].job], Cancel(s.calls[c].captured))],
              calls := s.calls - {c}) else s
    case Restart(torn) =>
      s.(slots := map j | j in s.slots :: Act(s.slots[j], Recover(torn == Some(j))), calls := map[])
  }

  ghost function RunSteps(s: Server, steps: seq<Step>): Server
    decreases |steps|
  {
    if steps == [] then s else RunSteps(Apply(s, steps[0]), steps[1..])
  }

  function Empty(capacity: Resources): Server {
    Server(capacity, map[], map[])
  }

  ghost predicate ServerInv(s: Server) {
    && Fits(s.capacity, WORD)
    && (forall j | j in s.slots :: SlotInv(s.slots[j]))
    && Fits(Total(s.slots), s.capacity)
    && CallsFit(s)
  }

  /** A cancellation under way is of a job there is, and a control it found was that job's. */
  ghost predicate CallsFit(s: Server) {
    forall c | c in s.calls ::
      s.calls[c].job in s.slots && (s.calls[c].captured ==> FoundControl(s.slots[s.calls[c].job]))
  }

  /** A step is at most one action on each job, and only a restart is a `Recover`. */
  lemma StepActs(s: Server, step: Step, j: JobId) returns (action: Option<Action>)
    requires j in s.slots
    ensures j in Apply(s, step).slots
    ensures Apply(s, step).slots[j] == if action.Some? then Act(s.slots[j], action.value) else s.slots[j]
    ensures action.Some? && action.value.Recover? <==> step.Restart?
    ensures action.Some? && action.value.Abort? ==> step == Task(j, action.value)
    ensures action.Some? && action.value.Cancel? ==>
              step.FinishCancel? && step.call in s.calls && s.calls[step.call] == Call(j, action.value.captured)
  {
    hide Act, VerdictFor, Resolve;
    action := None;
    match step
    case Task(k, task) =>
      if k == j && TaskAction(task) {
        action := Some(Resolve(s, j, task));
        ResolvedIsTheTasks(s, j, task);
      }
    case FinishCancel(c) =>
      if c in s.calls && s.calls[c].job == j { action := Some(Cancel(s.calls[c].captured)); }
    case Restart(torn) => action := Some(Recover(torn == Some(j)));
    case _ =>
  }

  lemma ResolvedIsTheTasks(s: Server, j: JobId, task: Action)
    requires j in s.slots && TaskAction(task)
    ensures TaskAction(Resolve(s, j, task)) && (!task.TryReserve? ==> Resolve(s, j, task) == task)
    ensures task.TryReserve? <==> Resolve(s, j, task).TryReserve?
  {
  }

  lemma StepKeepsCalls(s: Server, step: Step)
    requires (forall j | j in s.slots :: SlotInv(s.slots[j])) && CallsFit(s)
    ensures CallsFit(Apply(s, step))
  {
    hide Act, SlotInv, VerdictFor, Resolve, FoundControl;
    var s' := Apply(s, step);
    forall c | c in s'.calls
      ensures s'.calls[c].job in s'.slots && (s'.calls[c].captured ==> FoundControl(s'.slots[s'.calls[c].job]))
    {
      var j := s'.calls[c].job;
      var action := StepActs(s, step, j);
      if c in s.calls {
        if s.calls[c].captured && action.Some? { FoundControlStays(s.slots[j], action.value); }
      } else {
        assert s.slots[j].control.Some? ==> FoundControl(s.slots[j]) by { ControlIsFound(s.slots[j]); }
      }
    }
  }

  lemma ControlIsFound(slot: Slot)
    ensures slot.control.Some? ==> FoundControl(slot)
  {
  }

  lemma EmptyHoldsInvariant(capacity: Resources)
    requires Fits(capacity, WORD)
    ensures ServerInv(Empty(capacity))
  {
  }

  /** Only a granted reservation takes capacity. */
  lemma UseGrowsOnlyByGrant(s: Slot, action: Action)
    requires SlotInv(s)
    ensures Fits(Use(Act(s, action)), Use(s)) || (action == TryReserve(Grant) && Use(s) == NOTHING && Use(Act(s, action)) == s.job.need)
  {
    NeedIsConstant(s, action);
    HeldOnlyByGrant(s, action);
    hide Act, SlotInv;
  }

  lemma NeedIsConstant(s: Slot, action: Action)
    ensures Act(s, action).job.need == s.job.need
  {
  }

  lemma HeldOnlyByGrant(s: Slot, action: Action)
    ensures Act(s, action).job.reservation.Held? && !s.job.reservation.Held? ==> action == TryReserve(Grant)
  {
  }

  lemma TaskKeepsCapacity(s: Server, j: JobId, action: Action)
    requires ServerInv(s) && j in s.slots && TaskAction(action)
    ensures Fits(Total(Apply(s, Task(j, action)).slots), s.capacity)
  {
    hide Act, SlotInv, Total;
    var resolved := Resolve(s, j, action);
    var slot := Act(s.slots[j], resolved);
    TotalSplits(s.slots, j);
    TotalAfterUpdate(s.slots, j, slot);
    UseGrowsOnlyByGrant(s.slots[j], resolved);
  }

  lemma RestartKeepsInvariant(s: Server, torn: Option<JobId>)
    requires ServerInv(s)
    ensures ServerInv(Apply(s, Restart(torn)))
  {
    hide Act, SlotInv, Total, Use;
    StepKeepsCalls(s, Restart(torn));
    var s' := Apply(s, Restart(torn));
    forall j | j in s.slots
      ensures SlotInv(s'.slots[j]) && Fits(Use(s'.slots[j]), Use(s.slots[j]))
    {
      ActKeepsInvariant(s.slots[j], Recover(torn == Some(j)));
      UseGrowsOnlyByGrant(s.slots[j], Recover(torn == Some(j)));
    }
    TotalIsMonotone(s'.slots, s.slots);
  }

  lemma StepKeepsInvariant(s: Server, step: Step)
    requires ServerInv(s)
    ensures ServerInv(Apply(s, step))
  {
    hide Act, SlotInv, Total, VerdictFor, Resolve, CallsFit;
    StepKeepsCalls(s, step);
    match step
    case Submit(j, need, at) =>
      if j !in s.slots {
        NewSlotHoldsInvariant(need, at);
        TotalAfterUpdate(s.slots, j, NewSlot(need, at));
        assert s.slots - {j} == s.slots;
      }
    case Task(j, action) =>
      if j in s.slots && TaskAction(action) {
        ActKeepsInvariant(s.slots[j], Resolve(s, j, action));
        TaskKeepsCapacity(s, j, action);
      }
    case FinishCancel(c) =>
      if c in s.calls && s.calls[c].job in s.slots {
        var j, cancel := s.calls[c].job, Cancel(s.calls[c].captured);
        ActKeepsInvariant(s.slots[j], cancel);
        UseGrowsOnlyByGrant(s.slots[j], cancel);
        TotalSplits(s.slots, j);
        TotalAfterUpdate(s.slots, j, Act(s.slots[j], cancel));
      }
    case BeginCancel(_, _) =>
    case Restart(torn) => RestartKeepsInvariant(s, torn);
  }

  lemma {:induction false} RunKeepsInvariant(s: Server, steps: seq<Step>)
    requires ServerInv(s)
    ensures ServerInv(RunSteps(s, steps))
    decreases |steps|
  {
    if steps != [] {
      StepKeepsInvariant(s, steps[0]);
      RunKeepsInvariant(Apply(s, steps[0]), steps[1..]);
    }
  }

  // ---- What holds in every run ------------------------------------------

  /**
   In every run from an empty manager: what jobs hold never exceeds the
   capacity, so adding it up never overflows; a job that ended holds nothing; no job
   is executed twice, restarts included, or without a stored admission; and a job recorded as cancelled before
   execution was never executed, and the other way round.
   */
  lemma EveryRunIsSafe(capacity: Resources, steps: seq<Step>)
    requires Fits(capacity, WORD)
    ensures var s := RunSteps(Empty(capacity), steps);
            && Fits(Total(s.slots), capacity)
            && (forall j | j in s.slots :: VerdictFor(s, j) != Overflow)
            && (forall j | j in s.slots :: Terminal(s.slots[j].job.status) ==> Use(s.slots[j]) == NOTHING)
            && (forall j | j in s.slots :: s.slots[j].launches <= 1)
            && (forall j | j in s.slots :: s.slots[j].launches == 1 ==> s.slots[j].job.storedAdmission == Some(true))
            && (forall j | j in s.slots ::
                  s.slots[j].job.phase == Some(BeforeExecution) <==> s.slots[j].job.status.Cancelled? && s.slots[j].launches == 0)
  {
    hide RunSteps, Total, RunnerFits, OldestFitting;
    EmptyHoldsInvariant(capacity);
    RunKeepsInvariant(Empty(capacity), steps);
    var s := RunSteps(Empty(capacity), steps);
    CapacityIsConstant(Empty(capacity), steps);
  }

  lemma {:induction false} CapacityIsConstant(s: Server, steps: seq<Step>)
    ensures RunSteps(s, steps).capacity == s.capacity
    decreases |steps|
  {
    if steps != [] {
      CapacityIsConstant(Apply(s, steps[0]), steps[1..]);
    }
  }

  lemma StepFreezesEnded(s: Server, step: Step, j: JobId)
    requires ServerInv(s) && j in s.slots && Terminal(s.slots[j].job.status)
    ensures j in Apply(s, step).slots && FateOf(Apply(s, step).slots[j]) == FateOf(s.slots[j])
  {
    hide Act, SlotInv, FateOf, Total;
    match step
    case Task(k, action) => if k == j { EndedIsFrozen(s.slots[j], Resolve(s, j, action)); }
    case FinishCancel(c) => if c in s.calls { EndedIsFrozen(s.slots[j], Cancel(s.calls[c].captured)); }
    case Restart(torn) => EndedIsFrozen(s.slots[j], Recover(torn == Some(j)));
    case _ =>
  }

  /** A job that ended keeps its status, phase and executions for the rest of every run. */
  lemma {:induction false} EndedForGood(s: Server, steps: seq<Step>, j: JobId)
    requires ServerInv(s) && j in s.slots && Terminal(s.slots[j].job.status)
    ensures j in RunSteps(s, steps).slots
    ensures FateOf(RunSteps(s, steps).slots[j]) == FateOf(s.slots[j])
    decreases |steps|
  {
    if steps != [] {
      StepFreezesEnded(s, steps[0], j);
      StepKeepsInvariant(s, steps[0]);
      EndedForGood(Apply(s, steps[0]), steps[1..], j);
    }
  }

  // ---- What a run goes back to ------------------------------------------

  lemma SubmittedSlot(s: Server, step: Step, j: JobId)
    requires j !in s.slots && j in Apply(s, step).slots
    ensures step.Submit? && step.job == j && Apply(s, step).slots[j] == NewSlot(step.need, step.createdAt)
  {
    hide NewSlot, Act;
  }

  lemma NewSlotIsPlain(need: Resources, at: nat, status: JobStatus)
    ensures Unadmitted(NewSlot(need, at)) && NotEndedAs(NewSlot(need, at), status) && EffectFits(NewSlot(need, at))
    ensures !FailedUnexecuted(NewSlot(need, at))
    ensures NewSlot(need, at).job.need == need && NewSlot(need, at).job.createdAt == at
  {
  }

  ghost predicate NotAdmitted(s: Server, j: JobId) {
    j in s.slots ==> Unadmitted(s.slots[j])
  }

  lemma TaskOf(s: Server, step: Step, j: JobId, action: Action)
    requires j in s.slots && step != Task(j, action) && !action.TryReserve? && !action.Cancel? && !action.Recover?
    requires Apply(s, step).slots[j] != s.slots[j]
    ensures exists other :: other != action && Apply(s, step).slots[j] == Act(s.slots[j], other)
  {
    hide Act, VerdictFor;
    match step
    case Task(k, task) => assert k == j && Resolve(s, j, task) != action;
    case FinishCancel(c) => assert Apply(s, step).slots[j] == Act(s.slots[j], Cancel(s.calls[c].captured));
    case Restart(torn) => assert Apply(s, step).slots[j] == Act(s.slots[j], Recover(torn == Some(j)));
    case _ =>
  }

  lemma {:induction false} NotAdmittedInRuns(s: Server, steps: seq<Step>, j: JobId)
    requires ServerInv(s) && NotAdmitted(s, j) && Task(j, Consult(Some(true))) !in steps
    ensures NotAdmitted(RunSteps(s, steps), j)
    decreases |steps|
  {
    hide Act, SlotInv, Total, Unadmitted, Fits, CallsFit, Apply;
    if steps != [] {
      var next := Apply(s, steps[0]);
      assert steps[0] in steps && forall x | x in steps[1..] :: x in steps;
      StepKeepsInvariant(s, steps[0]);
      if j in s.slots {
        var _ := StepActs(s, steps[0], j);
        if next.slots[j] != s.slots[j] {
          TaskOf(s, steps[0], j, Consult(Some(true)));
          var other :| other != Consult(Some(true)) && next.slots[j] == Act(s.slots[j], other);
          AdmittedOnlyByAnswer(s.slots[j], other);
        }
      } else if j in next.slots {
        SubmittedSlot(s, steps[0], j);
        NewSlotIsPlain(steps[0].need, steps[0].createdAt, Succeeded);
      }
      NotAdmittedInRuns(next, steps[1..], j);
    }
  }

  /**
   In every run, what is admitted and what executes was admitted by an answer of the policy: a job for which no
   admission was ever answered, whatever denials were, stores none and never executes.
   */
  lemma ExecutesOnlyIfAdmitted(capacity: Resources, steps: seq<Step>, j: JobId)
    requires Fits(capacity, WORD) && Task(j, Consult(Some(true))) !in steps && j in RunSteps(Empty(capacity), steps).slots
    ensures var slot := RunSteps(Empty(capacity), steps).slots[j];
            && slot.launches == 0 && slot.job.storedAdmission != Some(true) && slot.job.admission != Some(true)
            && !slot.job.status.Admitted? && !slot.job.status.Preparing? && !slot.job.status.Running?
  {
    hide RunSteps, SlotInv, Total, CallsFit;
    EmptyHoldsInvariant(capacity);
    NotAdmittedInRuns(Empty(capacity), steps, j);
    RunKeepsInvariant(Empty(capacity), steps);
    UnadmittedDoesNotRun(RunSteps(Empty(capacity), steps).slots[j]);
  }

  ghost predicate NeverEndedAs(s: Server, j: JobId, status: JobStatus) {
    j in s.slots ==> NotEndedAs(s.slots[j], status)
  }

  lemma {:induction false} NeverEndedAsInRuns(s: Server, steps: seq<Step>, j: JobId, status: JobStatus)
    requires ServerInv(s) && NeverEndedAs(s, j, status) && Task(j, Finish(Some(status))) !in steps
    requires ExecutionStatus(status) && !status.Failed?
    ensures NeverEndedAs(RunSteps(s, steps), j, status)
    decreases |steps|
  {
    hide Act, SlotInv, Total, NotEndedAs, Fits, CallsFit, Apply, ExecutionStatus;
    if steps != [] {
      var next := Apply(s, steps[0]);
      assert steps[0] in steps && forall x | x in steps[1..] :: x in steps;
      StepKeepsInvariant(s, steps[0]);
      if j in s.slots {
        var _ := StepActs(s, steps[0], j);
        if next.slots[j] != s.slots[j] {
          TaskOf(s, steps[0], j, Finish(Some(status)));
          var other :| other != Finish(Some(status)) && next.slots[j] == Act(s.slots[j], other);
          EndsOnlyAsExecuted(s.slots[j], other, status);
        }
      } else if j in next.slots {
        SubmittedSlot(s, steps[0], j);
        NewSlotIsPlain(steps[0].need, steps[0].createdAt, status);
      }
      NeverEndedAsInRuns(next, steps[1..], j, status);
    }
  }

  /**
   In every run, a job recorded as succeeded or timed out, or as cancelled after it had executed, was executed and its
   execution ended as just that.
   */
  lemma RecordedAsItEnded(capacity: Resources, steps: seq<Step>, j: JobId)
    requires Fits(capacity, WORD) && j in RunSteps(Empty(capacity), steps).slots
    requires var slot := RunSteps(Empty(capacity), steps).slots[j];
             slot.job.status.Succeeded? || slot.job.status.TimedOut? || (slot.job.status.Cancelled? && slot.launches == 1)
    ensures var slot := RunSteps(Empty(capacity), steps).slots[j];
            slot.launches == 1 && Task(j, Finish(Some(slot.job.status))) in steps
  {
    hide RunSteps, Total, CallsFit, RunnerFits;
    var status := RunSteps(Empty(capacity), steps).slots[j].job.status;
    EmptyHoldsInvariant(capacity);
    RunKeepsInvariant(Empty(capacity), steps);
    if Task(j, Finish(Some(status))) !in steps {
      NeverEndedAsInRuns(Empty(capacity), steps, j, status);
    }
  }

  ghost predicate RequestFits(s: Server, j: JobId, need: Resources, at: nat) {
    j in s.slots && s.slots[j].job.need == need && s.slots[j].job.createdAt == at && EffectFits(s.slots[j])
  }

  lemma CapturedWasFound(s: Server, c: CallId)
    requires ServerInv(s) && c in s.calls && s.calls[c].captured
    ensures s.calls[c].job in s.slots && FoundControl(s.slots[s.calls[c].job])
  {
    hide SlotInv, Total, Fits;
  }

  lemma {:induction false} RequestFitsInRuns(s: Server, steps: seq<Step>, j: JobId, need: Resources, at: nat)
    requires ServerInv(s) && RequestFits(s, j, need, at)
    ensures RequestFits(RunSteps(s, steps), j, need, at)
    decreases |steps|
  {
    hide Act, SlotInv, Total, EffectFits, Fits, CallsFit, Apply;
    if steps != [] {
      StepKeepsInvariant(s, steps[0]);
      var action := StepActs(s, steps[0], j);
      if action.Some? {
        if action.value == Cancel(true) { CapturedWasFound(s, steps[0].call); }
        RequestIsConstant(s.slots[j], action.value);
        EffectStaysFitting(s.slots[j], action.value);
      }
      RequestFitsInRuns(Apply(s, steps[0]), steps[1..], j, need, at);
    }
  }

  /**
   A job that is accepted keeps what it asked for and its place in the queue over every run. A cancellation that took
   effect on it was asked for, and it is recorded cancelled. Where its record says that an interrupt was requested, what
   is still to execute has been asked to stop.
   */
  lemma SubmissionIsKept(s: Server, steps: seq<Step>, j: JobId, need: Resources, at: nat)
    requires ServerInv(s) && j !in s.slots
    ensures var later := RunSteps(Apply(s, Submit(j, need, at)), steps);
            && j in later.slots && later.slots[j].job.need == need && later.slots[j].job.createdAt == at
            && (later.slots[j].job.effective ==> later.slots[j].job.status.Cancelled? && later.slots[j].job.requested)
            && (later.slots[j].job.phase.Some? ==> later.slots[j].job.requested)
            && (later.slots[j].job.phase == Some(InterruptRequested) ==> !AboutToExecute(later.slots[j]))
            && (later.slots[j].job.status.Cancelled? && later.slots[j].launches == 0 ==> later.slots[j].job.effective)
  {
    hide RunSteps, RunnerFits, Total, Fits, CallsFit, NewSlot;
    StepKeepsInvariant(s, Submit(j, need, at));
    NewSlotIsPlain(need, at, Succeeded);
    RequestFitsInRuns(Apply(s, Submit(j, need, at)), steps, j, need, at);
    RunKeepsInvariant(Apply(s, Submit(j, need, at)), steps);
  }

  /** The job waits for capacity and could be given it beside what is reserved. */
  ghost predicate CouldBeGranted(s: Server, j: JobId)
    requires j in s.slots
  {
    var job := s.slots[j].job;
    !Terminal(job.status) && job.reservation.Pending? && Fits(Add(Total(s.slots), job.need), s.capacity)
  }

  lemma FittingIsGrantable(s: Server, j: JobId)
    requires ServerInv(s) && j in s.slots
    ensures Fitting(s.slots, Available(s.capacity, Total(s.slots)), j) <==> CouldBeGranted(s, j)
  {
    hide Total, SlotInv, CallsFit;
  }

  /**
   What `try_reserve` decides is what happens to a job that waits. It is refused exactly when it could never fit, and
   given its reservation exactly when it fits beside what is reserved and every other job that does came later, by
   time and then by id: a job that fits may overtake one that does not, never one that does. Otherwise it waits on.
   */
  lemma DecisionIsCarriedOut(s: Server, j: JobId)
    requires ServerInv(s) && j in s.slots && s.slots[j].runner.Reserving?
    requires s.slots[j].job.reservation.Pending? && !Terminal(s.slots[j].job.status)
    ensures var after := Apply(s, Task(j, TryReserve(Wait))).slots[j];
            && (!Fits(s.slots[j].job.need, s.capacity) <==> after.job.status.Rejected?)
            && (after.job.reservation.Held? <==> after.job.status.Reserved?)
            && (after.job.reservation.Held?
                <==> && Fits(Add(Total(s.slots), s.slots[j].job.need), s.capacity)
                     && forall k | k in s.slots && k != j && CouldBeGranted(s, k) ::
                          || s.slots[j].job.createdAt < s.slots[k].job.createdAt
                          || (s.slots[j].job.createdAt == s.slots[k].job.createdAt && j < k))
            && (after.job.status.Rejected? || after.job.status.Reserved? || after.job.status.WaitingForCapacity?)
  {
    hide Total, SlotInv, CallsFit, Fitting, CouldBeGranted;
    forall k | k in s.slots
      ensures Fitting(s.slots, Available(s.capacity, Total(s.slots)), k) <==> CouldBeGranted(s, k)
    {
      FittingIsGrantable(s, k);
    }
    GrantableMeans(s, j);
  }

  lemma GrantableMeans(s: Server, j: JobId)
    requires ServerInv(s) && j in s.slots && s.slots[j].job.reservation.Pending? && !Terminal(s.slots[j].job.status)
    ensures CouldBeGranted(s, j) <==> Fits(Add(Total(s.slots), s.slots[j].job.need), s.capacity)
    ensures CouldBeGranted(s, j) <==> Fits(s.slots[j].job.need, Available(s.capacity, Total(s.slots)))
  {
    hide Total, SlotInv, CallsFit;
  }

  /** The `i`-th step takes one of the two ways to fail a job before it is executed. */
  ghost predicate FailsAt(s: Server, steps: seq<Step>, i: nat, j: JobId) {
    && i < |steps|
    && var before := RunSteps(s, steps[..i]);
       || steps[i] == Task(j, Abort(Failed))
       || (steps[i].Restart? && j in before.slots && before.slots[j].runner.Launching?)
  }

  lemma FailsLater(s: Server, steps: seq<Step>, i: nat, j: JobId)
    requires steps != [] && FailsAt(Apply(s, steps[0]), steps[1..], i, j)
    ensures FailsAt(s, steps, i + 1, j)
  {
    assert steps[..i + 1][0] == steps[0] && steps[..i + 1][1..] == steps[1..][..i];
  }

  lemma FailsNow(s: Server, steps: seq<Step>, j: JobId)
    requires steps != [] && j in s.slots
    requires steps[0] == Task(j, Abort(Failed)) || (steps[0].Restart? && s.slots[j].runner.Launching?)
    ensures FailsAt(s, steps, 0, j)
  {
    assert steps[..0] == [];
  }

  lemma {:induction false} FailsInRunsOnlySo(s: Server, steps: seq<Step>, j: JobId)
    requires ServerInv(s) && (j in s.slots ==> !FailedUnexecuted(s.slots[j])) && forall i: nat :: !FailsAt(s, steps, i, j)
    ensures j in RunSteps(s, steps).slots ==> !FailedUnexecuted(RunSteps(s, steps).slots[j])
    decreases |steps|
  {
    hide Act, SlotInv, Total, FailedUnexecuted, FailsAt, Fits, CallsFit, Apply;
    if steps != [] {
      var next := Apply(s, steps[0]);
      StepKeepsInvariant(s, steps[0]);
      if j in s.slots {
        var action := StepActs(s, steps[0], j);
        if action.Some? {
          if FailsUnexecuted(s.slots[j], action.value) { FailsNow(s, steps, j); }
          FailsOnlySo(s.slots[j], action.value);
        }
      } else if j in next.slots {
        SubmittedSlot(s, steps[0], j);
        NewSlotIsPlain(steps[0].need, steps[0].createdAt, Succeeded);
      }
      forall i: nat ensures !FailsAt(next, steps[1..], i, j) {
        if FailsAt(next, steps[1..], i, j) { FailsLater(s, steps, i, j); }
      }
      FailsInRunsOnlySo(next, steps[1..], j);
    }
  }

  /**
   In every run, a job is recorded as failed without having been executed only if there was no directory for its logs,
   or a crash came between its entering `running` and its execution.
   */
  lemma FailedUnexecutedOnlySo(capacity: Resources, steps: seq<Step>, j: JobId)
    requires Fits(capacity, WORD) && j in RunSteps(Empty(capacity), steps).slots
    requires RunSteps(Empty(capacity), steps).slots[j].job.status.Failed?
    requires RunSteps(Empty(capacity), steps).slots[j].launches == 0
    ensures exists i: nat :: FailsAt(Empty(capacity), steps, i, j)
  {
    hide RunSteps, FailsAt;
    EmptyHoldsInvariant(capacity);
    if forall i: nat :: !FailsAt(Empty(capacity), steps, i, j) {
      FailsInRunsOnlySo(Empty(capacity), steps, j);
    }
  }

  /** How many of the actions were due when they came. */
  function DueIn(s: Slot, actions: seq<Action>): nat
    decreases |actions|
  {
    if actions == [] then 0 else (if Due(s, actions[0]) then 1 else 0) + DueIn(Act(s, actions[0]), actions[1..])
  }

  /**
   A task comes to its end: whatever cancellations fall in between, it takes no more steps than it has left, besides
   being told to wait, so no more than ten from submission on, or from a restart.
   */
  lemma {:induction false} TaskComesToAnEnd(s: Slot, actions: seq<Action>)
    requires SlotInv(s) && forall i | 0 <= i < |actions| :: !actions[i].Recover?
    ensures SlotInv(ActAll(s, actions)) && DueIn(s, actions) + Remaining(ActAll(s, actions)) <= Remaining(s) <= 10
    decreases |actions|
  {
    hide SlotInv, Act, Due;
    if actions != [] {
      ActKeepsInvariant(s, actions[0]);
      if Due(s, actions[0]) { DueStepAdvances(s, actions[0]); } else { NothingGoesBack(s, actions[0]); }
      TaskComesToAnEnd(Act(s, actions[0]), actions[1..]);
    }
  }

  // ---- Where a cancellation or a job gets lost --------------------------

  /** The job executes, and nothing has asked its execution to stop. */
  ghost predicate ExecutesUnasked(s: Server, j: JobId) {
    j in s.slots && Unasked(s.slots[j])
  }

  lemma {:induction false} StoppedForGood(s: Server, steps: seq<Step>, j: JobId)
    requires ServerInv(s) && j in s.slots && Stopped(s.slots[j])
    ensures !ExecutesUnasked(RunSteps(s, steps), j)
    decreases |steps|
  {
    hide Act, SlotInv, Total, Stopped, Apply, Unasked, Fits, CallsFit;
    if steps == [] {
      StoppedIsAsked(s.slots[j]);
    } else {
      var action := StepActs(s, steps[0], j);
      if action.Some? { StoppedStays(s.slots[j], action.value); }
      StepKeepsInvariant(s, steps[0]);
      StoppedForGood(Apply(s, steps[0]), steps[1..], j);
    }
  }

  /** What the task still has to do until the command executes. */
  function UntilExecution(slot: Slot): seq<Action> {
    if slot.runner.ToRunning? then [JobRecord.Run, Launch] else if slot.runner.Launching? then [Launch] else []
  }

  lemma LeftAloneExecutes(slot: Slot)
    requires SlotInv(slot) && AboutToExecute(slot)
    ensures var after := ActAll(slot, UntilExecution(slot)); after.runner.Executing? && Unasked(after)
  {
    if slot.runner.ToRunning? {
      assert [JobRecord.Run, Launch][1..] == [Launch];
    }
  }

  /** Left alone, a job about to execute does execute, and nothing has asked it to stop. */
  lemma AboutToExecuteExecutes(s: Server, j: JobId) returns (steps: seq<Step>)
    requires ServerInv(s) && j in s.slots && AboutToExecute(s.slots[j])
    ensures ExecutesUnasked(RunSteps(s, steps), j) && RunSteps(s, steps).slots[j].runner.Executing?
  {
    hide RunSteps, ActAll, Total, SlotInv, AboutToExecute, Unasked, CallsFit, Fits;
    var actions := UntilExecution(s.slots[j]);
    steps := Tasks(j, actions) + [];
    RunTasks(s, j, actions, []);
    RunNothing(s.(slots := s.slots[j := ActAll(s.slots[j], actions)]));
    LeftAloneExecutes(s.slots[j]);
  }

  lemma MissedIsStillAbout(slot: Slot)
    requires AboutToExecute(slot) && SlotInv(slot)
    ensures AboutToExecute(Act(slot, Cancel(false)))
  {
  }

  /**
   When a completed cancellation keeps its promise. After its locked half, the command never executes without having
   been asked to stop, in any continuation, restarts included, exactly when the control had been found before the
   lock was taken or the task was not about to execute when it was. Otherwise the command, left alone, executes.
   */
  lemma CancelMissesExactlyWhen(s: Server, c: CallId)
    requires ServerInv(s) && c in s.calls
    ensures var j := s.calls[c].job;
            var after := Apply(s, FinishCancel(c));
            (forall steps :: !ExecutesUnasked(RunSteps(after, steps), j))
            <==> s.calls[c].captured || !AboutToExecute(s.slots[j])
  {
    hide SlotInv, Total, Act, AboutToExecute, RunSteps, Fits, FoundControl, Stopped;
    var j := s.calls[c].job;
    var after := Apply(s, FinishCancel(c));
    StepKeepsInvariant(s, FinishCancel(c));
    if s.calls[c].captured || !AboutToExecute(s.slots[j]) {
      CancelStops(s.slots[j], s.calls[c].captured);
      forall steps ensures !ExecutesUnasked(RunSteps(after, steps), j) {
        StoppedForGood(after, steps, j);
      }
    } else {
      MissedIsStillAbout(s.slots[j]);
      var steps := AboutToExecuteExecutes(after, j);
    }
  }

  lemma RunFirst(s: Server, step: Step, rest: seq<Step>)
    ensures RunSteps(s, [step] + rest) == RunSteps(Apply(s, step), rest)
  {
    assert ([step] + rest)[1..] == rest;
  }

  lemma {:induction false} RunAppends(s: Server, first: seq<Step>, rest: seq<Step>)
    ensures RunSteps(s, first + rest) == RunSteps(RunSteps(s, first), rest)
    decreases |first|
  {
    hide Apply;
    if first == [] {
      assert first + rest == rest;
    } else {
      assert (first + rest)[1..] == first[1..] + rest;
      RunAppends(Apply(s, first[0]), first[1..], rest);
    }
  }

  /** Consecutive steps of one job's task. */
  ghost function Tasks(j: JobId, actions: seq<Action>): seq<Step> {
    seq(|actions|, i requires 0 <= i < |actions| => Task(j, actions[i]))
  }

  function ActAll(s: Slot, actions: seq<Action>): Slot
    decreases |actions|
  {
    if actions == [] then s else ActAll(Act(s, actions[0]), actions[1..])
  }

  /** Steps of one task that ask for no capacity change its slot alone. */
  lemma {:induction false} RunTasks(s: Server, j: JobId, actions: seq<Action>, rest: seq<Step>)
    requires j in s.slots
    requires forall i | 0 <= i < |actions| :: TaskAction(actions[i]) && !actions[i].TryReserve?
    ensures RunSteps(s, Tasks(j, actions) + rest) == RunSteps(s.(slots := s.slots[j := ActAll(s.slots[j], actions)]), rest)
    decreases |actions|
  {
    hide Act, Resolve;
    if actions == [] {
      assert Tasks(j, actions) + rest == rest;
      assert s.slots[j := s.slots[j]] == s.slots;
    } else {
      var next := Apply(s, Task(j, actions[0]));
      assert Resolve(s, j, actions[0]) == actions[0] by { TaskResolves(s, j, actions[0]); }
      assert Tasks(j, actions) + rest == [Task(j, actions[0])] + (Tasks(j, actions[1..]) + rest);
      RunFirst(s, Task(j, actions[0]), Tasks(j, actions[1..]) + rest);
      RunTasks(next, j, actions[1..], rest);
      assert next.slots[j := ActAll(s.slots[j], actions)] == s.slots[j := ActAll(s.slots[j], actions)];
    }
  }

  lemma TaskResolves(s: Server, j: JobId, action: Action)
    requires j in s.slots && !action.TryReserve?
    ensures Resolve(s, j, action) == action
  {
  }

  const TO_EXECUTION := [Register, Prepare, JobRecord.Run, Launch]

  lemma RegisteredTaskExecutes(slot: Slot)
    requires slot.runner.Registering? && slot.job.status.Admitted?
    ensures ActAll(slot, TO_EXECUTION)
         == slot.(job := slot.job.(status := Running), runner := Executing, control := Some(false), launches := slot.launches + 1)
  {
    var s1 := Act(slot, Register);
    var s2 := Act(s1, Prepare);
    var s3 := Act(s2, JobRecord.Run);
    assert TO_EXECUTION[1..] == [Prepare, JobRecord.Run, Launch];
    assert TO_EXECUTION[1..][1..] == [JobRecord.Run, Launch];
    assert TO_EXECUTION[1..][1..][1..] == [Launch];
  }

  /**
   The cancellation the promise excludes exists: for every job whose task is about to
   register its control, a cancellation that looks for the control first and takes the
   lock last leaves the command executing with its flag unset.
   */
  lemma CancelCanMissARunningCommand(s: Server, j: JobId, c: CallId)
    requires ServerInv(s) && j in s.slots && c !in s.calls
    requires s.slots[j].runner.Registering? && s.slots[j].job.status.Admitted?
    ensures var after := RunSteps(s, [BeginCancel(c, j)] + (Tasks(j, TO_EXECUTION) + [FinishCancel(c)]));
            && j in after.slots && after.slots[j].runner.Executing? && after.slots[j].launches == 1
            && after.slots[j].job.requested && after.slots[j].control == Some(false) && c !in after.calls
  {
    hide RunSteps, Total, ActAll, SlotInv, Act, Fits;
    RegisteringHasNoControl(s.slots[j]);
    var begun := Apply(s, BeginCancel(c, j));
    RunFirst(s, BeginCancel(c, j), Tasks(j, TO_EXECUTION) + [FinishCancel(c)]);
    RunTasks(begun, j, TO_EXECUTION, [FinishCancel(c)]);
    RegisteredTaskExecutes(s.slots[j]);
    var executing := begun.(slots := begun.slots[j := ActAll(begun.slots[j], TO_EXECUTION)]);
    RunLast(executing, FinishCancel(c));
    LateCancelMisses(executing.slots[j]);
  }

  lemma LateCancelMisses(slot: Slot)
    requires slot.runner.Executing? && slot.job.status.Running? && slot.control == Some(false)
    ensures var after := Act(slot, Cancel(false));
            after.runner.Executing? && after.launches == slot.launches && after.job.requested && after.control == Some(false)
  {
  }

  lemma RegisteringHasNoControl(slot: Slot)
    requires SlotInv(slot) && slot.runner.Registering?
    ensures slot.control.None? && slot.launches == 0
  {
  }

  lemma RunLast(s: Server, step: Step)
    ensures RunSteps(s, [step]) == Apply(s, step)
  {
    assert RunSteps(Apply(s, step), [step][1..]) == Apply(s, step);
  }

  lemma StepEndsCall(s: Server, step: Step, c: CallId)
    requires ServerInv(s) && c in s.calls
    ensures c !in Apply(s, step).calls <==> step == FinishCancel(c) || step.Restart?
    ensures c in Apply(s, step).calls ==> Apply(s, step).calls[c] == s.calls[c]
  {
    hide SlotInv, Total, Act, Fits, FoundControl;
  }

  /** The call is still the one it was, all the way. */
  ghost predicate UnderWay(s: Server, steps: seq<Step>, c: CallId, call: Call)
    decreases |steps|
  {
    c in s.calls && s.calls[c] == call && (steps != [] ==> UnderWay(Apply(s, steps[0]), steps[1..], c, call))
  }

  /**
   Over any run, a cancellation stays under way, with what it found when it looked for the control, exactly as long as
   neither its locked half runs nor the manager restarts, whatever else happens.
   */
  lemma {:induction false} CallEndsExactlyWhen(s: Server, steps: seq<Step>, c: CallId)
    requires ServerInv(s) && c in s.calls
    ensures UnderWay(s, steps, c, s.calls[c]) <==> forall i | 0 <= i < |steps| :: steps[i] != FinishCancel(c) && !steps[i].Restart?
    ensures UnderWay(s, steps, c, s.calls[c]) ==> c in RunSteps(s, steps).calls && RunSteps(s, steps).calls[c] == s.calls[c]
    decreases |steps|
  {
    hide ServerInv, Apply;
    if steps != [] {
      StepEndsCall(s, steps[0], c);
      StepKeepsInvariant(s, steps[0]);
      if c in Apply(s, steps[0]).calls {
        CallEndsExactlyWhen(Apply(s, steps[0]), steps[1..], c);
        assert steps == [steps[0]] + steps[1..];
      } else {
        EndedIsNotUnderWay(s, steps, c, s.calls[c]);
      }
    }
  }

  lemma EndedIsNotUnderWay(s: Server, steps: seq<Step>, c: CallId, call: Call)
    requires steps != [] && c !in Apply(s, steps[0]).calls
    ensures !UnderWay(s, steps, c, call)
  {
    hide Apply;
  }

  const AFTER_RESTART := [Consult(None), Register, Prepare, JobRecord.Run, Launch]

  lemma AdmittedRunsAfterRestart(slot: Slot)
    requires slot.runner.Admitting? && slot.job.status.Admitted? && AdmissionStored(slot.job) && slot.launches == 0
    ensures var after := ActAll(slot, AFTER_RESTART);
            after.runner.Executing? && Unasked(after) && after.job.requested == slot.job.requested
  {
    var s1 := Act(slot, Consult(None));
    var s2 := Act(s1, Register);
    var s3 := Act(s2, Prepare);
    var s4 := Act(s3, JobRecord.Run);
    assert AFTER_RESTART[1..] == [Register, Prepare, JobRecord.Run, Launch];
    assert AFTER_RESTART[1..][1..] == [Prepare, JobRecord.Run, Launch];
    assert AFTER_RESTART[1..][1..][1..] == [JobRecord.Run, Launch];
    assert AFTER_RESTART[1..][1..][1..][1..] == [Launch];
  }

  /**
   A cancellation that a restart catches before its locked half leaves no trace: the job, if admitted and holding its
   reservation, can go on to execute unasked, and its record does not say that it was ever to be cancelled.
   */
  lemma RestartLosesACancellation(s: Server, j: JobId, c: CallId)
    requires ServerInv(s) && j in s.slots && c !in s.calls
    requires s.slots[j].job.status.Admitted? && !s.slots[j].job.requested
    ensures var after := RunSteps(s, [BeginCancel(c, j)] + ([Restart(None)] + ([Task(j, TryReserve(Wait))] + (Tasks(j, AFTER_RESTART) + []))));
            && ExecutesUnasked(after, j) && !after.slots[j].job.requested && c !in after.calls
  {
    hide RunSteps, Total, VerdictFor, ActAll, Unasked, CallsFit, Fits, SlotInv, Act;
    AdmittedHoldsOn(s.slots[j]);
    var begun := Apply(s, BeginCancel(c, j));
    var restarted := Apply(begun, Restart(None));
    var holding := Apply(restarted, Task(j, TryReserve(Wait)));
    RunFirst(s, BeginCancel(c, j), [Restart(None)] + ([Task(j, TryReserve(Wait))] + (Tasks(j, AFTER_RESTART) + [])));
    RunFirst(begun, Restart(None), [Task(j, TryReserve(Wait))] + (Tasks(j, AFTER_RESTART) + []));
    RunFirst(restarted, Task(j, TryReserve(Wait)), Tasks(j, AFTER_RESTART) + []);
    RunTasks(holding, j, AFTER_RESTART, []);
    AdmittedRunsAfterRestart(holding.slots[j]);
    RunNothing(holding.(slots := holding.slots[j := ActAll(holding.slots[j], AFTER_RESTART)]));
  }

  lemma AdmittedHoldsOn(slot: Slot)
    requires SlotInv(slot) && slot.job.status.Admitted?
    ensures var restarted := Act(slot, Recover(false));
            && restarted.job == slot.job && restarted.runner.Reserving? && AdmissionStored(slot.job)
            && forall verdict :: Act(restarted, TryReserve(verdict)) == restarted.(runner := Admitting)
    ensures slot.launches == 0 && Act(slot, Recover(false)).launches == 0
  {
  }

  const TO_REGISTERING := [Consult(Some(true)), PersistAdmission]

  lemma AdmittedTaskRegisters(slot: Slot)
    requires slot.runner.Admitting? && slot.job.status.Reserved? && slot.job.reservation.Held? && slot.job.storedAdmission.None?
    ensures var after := ActAll(slot, TO_REGISTERING); after.runner.Registering? && after.job.status.Admitted?
  {
    assert TO_REGISTERING[1..] == [PersistAdmission];
  }

  lemma TotalOfOne(j: JobId, slot: Slot)
    ensures Total(map[j := slot]) == Use(slot)
  {
    hide Use, Add;
    var none: map<JobId, Slot> := map[];
    TotalAfterUpdate(none, j, slot);
    assert none[j := slot] == map[j := slot];
    assert none - {j} == none;
    AddAssociates(Use(slot), NOTHING, NOTHING);
  }

  /** A job alone on a manager whose capacity it fits is granted its reservation. */
  lemma OnlyJobIsGranted(capacity: Resources, j: JobId, need: Resources, at: nat)
    requires Fits(capacity, WORD) && Fits(need, capacity)
    ensures VerdictFor(Server(capacity, map[j := NewSlot(need, at)], map[]), j) == Grant
  {
    hide Total;
    TotalOfOne(j, NewSlot(need, at));
    AddAssociates(need, NOTHING, NOTHING);
    assert Available(capacity, NOTHING) == capacity;
  }

  /** The point where a cancellation can miss is reached by every first job that fits. */
  lemma RacePointIsReached(capacity: Resources, j: JobId, need: Resources, at: nat)
    requires Fits(capacity, WORD) && Fits(need, capacity)
    ensures var s := RunSteps(Empty(capacity), [Submit(j, need, at)] + ([Task(j, TryReserve(Wait))] + (Tasks(j, TO_REGISTERING) + [])));
            j in s.slots && s.slots[j].runner.Registering? && s.slots[j].job.status.Admitted? && s.calls == map[]
  {
    hide RunSteps, ActAll, VerdictFor, Total;
    var submitted := Apply(Empty(capacity), Submit(j, need, at));
    var granted := Apply(submitted, Task(j, TryReserve(Wait)));
    RunFirst(Empty(capacity), Submit(j, need, at), [Task(j, TryReserve(Wait))] + (Tasks(j, TO_REGISTERING) + []));
    RunFirst(submitted, Task(j, TryReserve(Wait)), Tasks(j, TO_REGISTERING) + []);
    OnlyJobIsGranted(capacity, j, need, at);
    assert submitted == Server(capacity, map[j := NewSlot(need, at)], map[]);
    RunTasks(granted, j, TO_REGISTERING, []);
    AdmittedTaskRegisters(granted.slots[j]);
    RunNothing(granted.(slots := granted.slots[j := ActAll(granted.slots[j], TO_REGISTERING)]));
  }

  /** Only a restart takes a wedged job further: without one it never ends. */
  lemma {:induction false} WedgedUntilRestart(s: Server, steps: seq<Step>, j: JobId)
    requires j in s.slots && Wedged(s.slots[j]) && s.slots[j].control.None?
    requires forall i | 0 <= i < |steps| :: !steps[i].Restart?
    ensures j in RunSteps(s, steps).slots && Wedged(RunSteps(s, steps).slots[j])
    decreases |steps|
  {
    if steps != [] {
      WedgedStepStays(s, steps[0], j);
      WedgedUntilRestart(Apply(s, steps[0]), steps[1..], j);
    }
  }

  lemma WedgedStepStays(s: Server, step: Step, j: JobId)
    requires j in s.slots && Wedged(s.slots[j]) && s.slots[j].control.None? && !step.Restart?
    ensures j in Apply(s, step).slots && Wedged(Apply(s, step).slots[j]) && Apply(s, step).slots[j].control.None?
  {
    hide Act, Wedged;
    match step
    case Task(k, action) => if k == j && TaskAction(action) { WedgedStays(s.slots[j], Resolve(s, j, action)); }
    case FinishCancel(c) => if c in s.calls { WedgedStays(s.slots[j], Cancel(s.calls[c].captured)); }
    case _ =>
  }

  const AFTER_RESERVING := [Consult(None), Register, Prepare, CleanUp]

  /**
   A restart that finds a job preparing wedges it: the task it starts keeps the
   reservation, cannot enter `preparing` a second time, and gives up without ending the
   job.
   */
  lemma RestartWhilePreparingWedges(s: Server, j: JobId)
    requires ServerInv(s) && j in s.slots
    requires s.slots[j].job.status.Preparing? && s.slots[j].job.reservation.Held?
    ensures var after := RunSteps(s, [Restart(None)] + ([Task(j, TryReserve(Wait))] + (Tasks(j, AFTER_RESERVING) + [])));
            j in after.slots && Wedged(after.slots[j])
  {
    hide RunSteps, Total, VerdictFor, ActAll, SlotInv, Act, CallsFit, Fits;
    PreparingHoldsOn(s.slots[j]);
    var restarted := Apply(s, Restart(None));
    var holding := Apply(restarted, Task(j, TryReserve(Wait)));
    RunFirst(s, Restart(None), [Task(j, TryReserve(Wait))] + (Tasks(j, AFTER_RESERVING) + []));
    RunFirst(restarted, Task(j, TryReserve(Wait)), Tasks(j, AFTER_RESERVING) + []);
    RunTasks(holding, j, AFTER_RESERVING, []);
    PreparingTaskGivesUp(holding.slots[j]);
    RunNothing(holding.(slots := holding.slots[j := ActAll(holding.slots[j], AFTER_RESERVING)]));
  }

  lemma PreparingHoldsOn(slot: Slot)
    requires SlotInv(slot) && slot.job.status.Preparing? && slot.job.reservation.Held?
    ensures var restarted := Act(slot, Recover(false));
            && restarted.job == slot.job && restarted.runner.Reserving? && AdmissionStored(slot.job) && restarted.launches == 0
            && forall verdict :: Act(restarted, TryReserve(verdict)) == restarted.(runner := Admitting)
  {
  }

  lemma RunNothing(s: Server)
    ensures RunSteps(s, []) == s
  {
  }

  lemma PreparingTaskGivesUp(slot: Slot)
    requires slot.runner.Admitting? && slot.job.status.Preparing? && AdmissionStored(slot.job) && slot.launches == 0
    ensures Wedged(ActAll(slot, AFTER_RESERVING))
  {
    assert AFTER_RESERVING[1..] == [Register, Prepare, CleanUp];
    assert AFTER_RESERVING[1..][1..] == [Prepare, CleanUp];
    assert AFTER_RESERVING[1..][1..][1..] == [CleanUp];
  }

  /** Outside a wedged job, a job that has not ended always has a task running it. */
  lemma OnlyWedgedJobsAreAbandoned(capacity: Resources, steps: seq<Step>, j: JobId)
    requires Fits(capacity, WORD) && j in RunSteps(Empty(capacity), steps).slots
    ensures var slot := RunSteps(Empty(capacity), steps).slots[j];
            slot.runner.Idle? && !Terminal(slot.job.status) <==> Wedged(slot)
  {
    hide RunSteps, Total, CallsFit;
    EmptyHoldsInvariant(capacity);
    RunKeepsInvariant(Empty(capacity), steps);
  }

  /** The `i`-th step is a restart, and it finds the job preparing. */
  ghost predicate RestartFinds(s: Server, steps: seq<Step>, i: nat, j: JobId) {
    && i < |steps| && steps[i].Restart?
    && var before := RunSteps(s, steps[..i]);
       j in before.slots && before.slots[j].job.status.Preparing?
  }

  lemma RestartFindsLater(s: Server, steps: seq<Step>, i: nat, j: JobId)
    requires steps != [] && RestartFinds(Apply(s, steps[0]), steps[1..], i, j)
    ensures RestartFinds(s, steps, i + 1, j)
  {
    assert steps[..i + 1][0] == steps[0] && steps[..i + 1][1..] == steps[1..][..i];
  }

  lemma RestartFindsNow(s: Server, steps: seq<Step>, j: JobId)
    requires steps != [] && steps[0].Restart? && j in s.slots && s.slots[j].job.status.Preparing?
    ensures RestartFinds(s, steps, 0, j)
  {
    assert steps[..0] == [];
  }

  ghost predicate HasPreparedOnce(s: Server, j: JobId) {
    j in s.slots ==> PreparesOnce(s.slots[j])
  }

  lemma {:induction false} PreparesOnceInRuns(s: Server, steps: seq<Step>, j: JobId)
    requires ServerInv(s) && HasPreparedOnce(s, j) && forall i: nat :: !RestartFinds(s, steps, i, j)
    ensures HasPreparedOnce(RunSteps(s, steps), j)
    decreases |steps|
  {
    hide Act, SlotInv, Total, PreparesOnce, RestartFinds, Fits, CallsFit;
    if steps != [] {
      var next := Apply(s, steps[0]);
      StepKeepsInvariant(s, steps[0]);
      if j in s.slots {
        var action := StepActs(s, steps[0], j);
        if steps[0].Restart? && s.slots[j].job.status.Preparing? { RestartFindsNow(s, steps, j); }
        if action.Some? { PreparesOnceStays(s.slots[j], action.value); }
      } else if j in next.slots {
        NewSlotPreparesOnce(steps[0].need, steps[0].createdAt);
      }
      forall i: nat ensures !RestartFinds(next, steps[1..], i, j) {
        if RestartFinds(next, steps[1..], i, j) { RestartFindsLater(s, steps, i, j); }
      }
      PreparesOnceInRuns(next, steps[1..], j);
    }
  }

  lemma NewSlotPreparesOnce(need: Resources, at: nat)
    ensures PreparesOnce(NewSlot(need, at))
  {
  }

  /** In every run, a job is left without a task only if some restart found it preparing. */
  lemma WedgedOnlyByARestart(capacity: Resources, steps: seq<Step>, j: JobId)
    requires Fits(capacity, WORD) && j in RunSteps(Empty(capacity), steps).slots
    requires Wedged(RunSteps(Empty(capacity), steps).slots[j])
    ensures exists i: nat :: RestartFinds(Empty(capacity), steps, i, j)
  {
    hide RunSteps, RestartFinds;
    EmptyHoldsInvariant(capacity);
    if forall i: nat :: !RestartFinds(Empty(capacity), steps, i, j) {
      PreparesOnceInRuns(Empty(capacity), steps, j);
    }
  }

  lemma {:induction false} SpentForGood(s: Server, steps: seq<Step>, j: JobId)
    requires ServerInv(s) && j in s.slots && Spent(s.slots[j])
    ensures j in RunSteps(s, steps).slots && Spent(RunSteps(s, steps).slots[j])
    decreases |steps|
  {
    hide Act, SlotInv, Total, Spent, Apply, Fits, CallsFit;
    if steps != [] {
      var action := StepActs(s, steps[0], j);
      if action.Some? { SpentStays(s.slots[j], action.value); }
      StepKeepsInvariant(s, steps[0]);
      SpentForGood(Apply(s, steps[0]), steps[1..], j);
    }
  }

  lemma RecoveredIsSpent(slot: Slot, torn: bool)
    requires SlotInv(slot) && slot.job.status.Preparing?
    ensures Spent(Act(slot, Recover(torn)))
  {
  }

  /**
   A job that a restart finds preparing is never executed again, in any continuation: it stays in `preparing`, with or
   without a task, or is ended without having run.
   */
  lemma RestartedWhilePreparingNeverRuns(s: Server, torn: Option<JobId>, steps: seq<Step>, j: JobId)
    requires ServerInv(s) && j in s.slots && s.slots[j].job.status.Preparing?
    ensures var later := RunSteps(Apply(s, Restart(torn)), steps);
            && j in later.slots && later.slots[j].launches == 0
            && (later.slots[j].job.status.Preparing? || Terminal(later.slots[j].job.status))
            && !later.slots[j].runner.Launching? && !later.slots[j].runner.Executing?
  {
    hide SlotInv, RunSteps, Act, Total, Fits, CallsFit;
    StepKeepsInvariant(s, Restart(torn));
    RecoveredIsSpent(s.slots[j], torn == Some(j));
    SpentForGood(Apply(s, Restart(torn)), steps, j);
    var later := RunSteps(Apply(s, Restart(torn)), steps);
    RunKeepsInvariant(Apply(s, Restart(torn)), steps);
    SpentDoesNotRun(later.slots[j]);
  }

  lemma SpentDoesNotRun(slot: Slot)
    requires SlotInv(slot) && Spent(slot)
    ensures !slot.runner.Launching? && !slot.runner.Executing?
  {
  }
}
