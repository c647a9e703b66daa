/**
 Handing a node over to a new controller build, and back when it fails: the old process
 that carries it out, the new controller it starts, the previous build it restores, and the one
 durable record all three use. Every process may die at any moment, and nothing is assumed
 about timing.
 */
module HandOver {
  import opened Options

  type BuildId = nat

  datatype Status = Started | Refused | Completed | RollingBack | RolledBack

  /** Who stored the record's current status. */
  datatype Writer = OldProcess | NewController | RestoredController

  datatype UpgradeRecord = UpgradeRecord(upgradeId: nat, status: Status, from: BuildId, to: BuildId)

  // ---- A controller that starts -----------------------------------------

  /**
   `resume_upgrade`: what a controller of build `own` stores, having read `seen`. A new build
   that misses a workload refuses. `None`: the hand-over is not its business.
   */
  function Resume(seen: UpgradeRecord, own: BuildId, missing: bool): Option<UpgradeRecord> {
    if seen.status.Started? && seen.to == own then Some(seen.(status := if missing then Refused else Completed))
    else if seen.status.RollingBack? && seen.from == own then Some(seen.(status := RolledBack))
    else None
  }

  /** Of two controllers that find the same record, only those of one build may change it. */
  lemma OnlyOneBuildResumes(seen: UpgradeRecord, own: BuildId, missing: bool, other: BuildId, missingThere: bool)
    ensures Resume(seen, own, missing).Some? && Resume(seen, other, missingThere).Some? ==> own == other
    ensures Resume(seen, own, missing).Some? ==> Resume(Resume(seen, own, missing).value, other, missingThere).None?
  {
  }

  /** `Exited` has died and was not waited for; `Reaped` has. */
  datatype Process =
    | NotSpawned
    | Starting
    | Storing(next: UpgradeRecord)
    | Refusing
    | Serving
    | Exited
    | Reaped

  predicate Alive(p: Process) {
    p.Starting? || p.Storing? || p.Refusing? || p.Serving?
  }

  // ---- The old process --------------------------------------------------

  datatype Outcome = NewServes | PreviousRestored | HandOverFailed

  /** Where `hand_over` stands. `Dead`: the old process itself was lost. */
  datatype Pc =
    | LaunchNew
    | PollRecord
    | CheckExit
    | CheckDeadline
    | Kill
    | Wait
    | ReadForRollback
    | StoreRollback(next: UpgradeRecord)
    | LaunchPrevious
    | PollRestored
    | CheckRestoredExit
    | CheckRestoredDeadline
    | Done(outcome: Outcome)
    | Dead

  datatype State = State(record: UpgradeRecord, writer: Writer, pc: Pc, successor: Process, previous: Process)

  datatype Action =
    | Old(works: bool)
    | OldCannotRead
    | SuccessorMoves(missing: bool)
    | PreviousMoves(missing: bool)
    | SuccessorDies
    | PreviousDies
    | OldDies

  function Dies(p: Process): Process {
    if Alive(p) then Exited else p
  }

  /** One step of the old process; `works` is whether a launch, a kill, a store or a deadline goes well. */
  function OldStep(s: State, works: bool): State {
    match s.pc
    case LaunchNew => if works then s.(successor := Starting, pc := PollRecord) else s.(pc := ReadForRollback)
    case PollRecord =>
      if s.record.status.Completed? then s.(pc := Done(NewServes))
      else if s.record.status.Refused? then s.(pc := Wait)
      else s.(pc := CheckExit)
    case CheckExit =>
      if s.successor.Exited? && works then s.(successor := Reaped, pc := ReadForRollback) else s.(pc := CheckDeadline)
    case CheckDeadline => s.(pc := if works then PollRecord else Kill)
    case Kill => s.(successor := if works then Dies(s.successor) else s.successor, pc := Wait)
    case Wait => if s.successor.Exited? then s.(successor := Reaped, pc := ReadForRollback) else s
    case ReadForRollback => s.(pc := StoreRollback(s.record.(status := RollingBack)))
    case StoreRollback(next) =>
      if works then s.(record := next, writer := OldProcess, pc := LaunchPrevious) else s.(pc := Done(HandOverFailed))
    case LaunchPrevious => if works then s.(previous := Starting, pc := PollRestored) else s.(pc := Done(HandOverFailed))
    case PollRestored => s.(pc := if s.record.status.RolledBack? then Done(PreviousRestored) else CheckRestoredExit)
    case CheckRestoredExit =>
      if s.previous.Exited? && works then s.(previous := Reaped, pc := Done(HandOverFailed)) else s.(pc := CheckRestoredDeadline)
    case CheckRestoredDeadline => s.(pc := if works then PollRestored else Done(HandOverFailed))
    case Done(_) => s
    case Dead => s
  }

  /**
   A look at a record that cannot be read is no look. For the rollback the old process then uses the record it was
   given, which is the stored one but for the status it sets.
   */
  function OldMissesLook(s: State): State {
    match s.pc
    case PollRecord => s.(pc := CheckExit)
    case PollRestored => s.(pc := CheckRestoredExit)
    case _ => s
  }

  /** A controller of build `own` takes its next step on the shared record. */
  function ControllerStep(p: Process, record: UpgradeRecord, own: BuildId, missing: bool): (Process, UpgradeRecord) {
    match p
    case Starting =>
      (match Resume(record, own, missing) case Some(next) => Storing(next) case None => Serving, record)
    case Storing(next) => (if next.status.Refused? then Refusing else Serving, next)
    case Refusing => (Exited, record)
    case _ => (p, record)
  }

  function Step(s: State, action: Action): State {
    match action
    case Old(works) => OldStep(s, works)
    case OldCannotRead => OldMissesLook(s)
    case SuccessorMoves(missing) =>
      var (p, record) := ControllerStep(s.successor, s.record, s.record.to, missing);
      s.(successor := p, record := record, writer := if s.successor.Storing? then NewController else s.writer)
    case PreviousMoves(missing) =>
      var (p, record) := ControllerStep(s.previous, s.record, s.record.from, missing);
      s.(previous := p, record := record, writer := if s.previous.Storing? then RestoredController else s.writer)
    case SuccessorDies => s.(successor := Dies(s.successor))
    case PreviousDies => s.(previous := Dies(s.previous))
    case OldDies => s.(pc := Dead)
  }

  function Run(s: State, actions: seq<Action>): State
    decreases |actions|
  {
    if actions == [] then s else Run(Step(s, actions[0]), actions[1..])
  }

  /** The hand-over the daemon agreed to: a started record between two different builds. */
  function Agreed(upgradeId: nat, from: BuildId, to: BuildId): State {
    State(UpgradeRecord(upgradeId, Started, from, to), OldProcess, LaunchNew, NotSpawned, NotSpawned)
  }

  // ---- The invariant ----------------------------------------------------

  /** The new controller can no longer act: it was never started or has been waited for. */
  predicate SuccessorGone(s: State) {
    s.successor.NotSpawned? || s.successor.Reaped?
  }

  predicate PcFits(s: State) {
    match s.pc
    case LaunchNew => s.successor.NotSpawned? && s.previous.NotSpawned? && s.record.status.Started?
    case PollRecord | CheckExit | CheckDeadline | Kill => !SuccessorGone(s) && s.previous.NotSpawned?
    case Wait => !SuccessorGone(s) && s.previous.NotSpawned?
    case ReadForRollback => SuccessorGone(s) && s.previous.NotSpawned?
    case StoreRollback(next) => SuccessorGone(s) && s.previous.NotSpawned? && next == s.record.(status := RollingBack)
    case LaunchPrevious => SuccessorGone(s) && s.previous.NotSpawned? && s.record.status.RollingBack?
    case PollRestored | CheckRestoredExit | CheckRestoredDeadline =>
      SuccessorGone(s) && !s.previous.NotSpawned? && !s.previous.Reaped?
    case Done(outcome) =>
      && (outcome.NewServes? ==> s.record.status.Completed? && s.previous.NotSpawned? && !SuccessorGone(s))
      && (outcome.PreviousRestored? ==> s.record.status.RolledBack? && SuccessorGone(s))
      && (outcome.HandOverFailed? ==> SuccessorGone(s))
    case Dead => true
  }

  /** Each status is stored by one process only, and only that process's step can follow. */
  predicate RecordFits(s: State) {
    && (s.record.status.Started? || s.record.status.RollingBack? ==> s.writer.OldProcess?)
    && (s.record.status.Refused? || s.record.status.Completed? ==> s.writer.NewController?)
    && (s.record.status.RolledBack? ==> s.writer.RestoredController? && !s.previous.NotSpawned?)
    && (s.successor.NotSpawned? ==> !s.record.status.Refused? && !s.record.status.Completed?)
    && (!s.previous.NotSpawned? ==> SuccessorGone(s) && (s.record.status.RollingBack? || s.record.status.RolledBack?))
    && (s.previous.NotSpawned? && (s.record.status.RollingBack? || s.record.status.RolledBack?) ==> SuccessorGone(s))
    && (s.record.status.RolledBack? ==> !s.previous.Starting? && !s.previous.Storing?)
  }

  predicate ProcessesFit(s: State) {
    && (s.successor.Storing? ==> s.record.status.Started? && exists missing :: Resume(s.record, s.record.to, missing) == Some(s.successor.next))
    && (s.successor.Starting? ==> s.record.status.Started?)
    && (s.successor.Refusing? ==> s.record.status.Refused?)
    && (s.successor.Serving? ==> s.record.status.Completed?)
    && (s.previous.Storing? ==> s.record.status.RollingBack? && s.previous.next == s.record.(status := RolledBack))
    && (s.previous.Serving? ==> s.record.status.RolledBack?)
    && !s.previous.Refusing?
  }

  predicate Inv(s: State) {
    s.record.from != s.record.to && PcFits(s) && RecordFits(s) && ProcessesFit(s)
  }

  lemma AgreedHoldsInvariant(upgradeId: nat, from: BuildId, to: BuildId)
    requires from != to
    ensures Inv(Agreed(upgradeId, from, to))
  {
  }

  lemma StepKeepsInvariant(s: State, action: Action)
    requires Inv(s)
    ensures Inv(Step(s, action))
  {
    match action
    case Old(works) => OldKeepsInvariant(s, works);
    case SuccessorMoves(missing) => SuccessorKeepsInvariant(s, missing);
    case PreviousMoves(missing) => PreviousKeepsInvariant(s, missing);
    case OldCannotRead | OldDies => NoLookKeepsInvariant(s);
    case SuccessorDies | PreviousDies => DeathKeepsInvariant(s);
  }

  lemma OldKeepsInvariant(s: State, works: bool)
    requires Inv(s)
    ensures Inv(OldStep(s, works))
  {
    hide Resume, ControllerStep;
  }

  lemma SuccessorKeepsInvariant(s: State, missing: bool)
    requires Inv(s)
    ensures Inv(Step(s, SuccessorMoves(missing)))
  {
    if s.successor.Starting? {
      assert Resume(s.record, s.record.to, missing) == Resume(s.record, s.record.to, missing);
    }
  }

  lemma PreviousKeepsInvariant(s: State, missing: bool)
    requires Inv(s)
    ensures Inv(Step(s, PreviousMoves(missing)))
  {
  }

  lemma NoLookKeepsInvariant(s: State)
    requires Inv(s)
    ensures Inv(OldMissesLook(s)) && Inv(s.(pc := Dead))
  {
    hide Resume;
  }

  lemma DeathKeepsInvariant(s: State)
    requires Inv(s)
    ensures Inv(s.(successor := Dies(s.successor))) && Inv(s.(previous := Dies(s.previous)))
  {
    hide Resume;
  }

  lemma {:induction false} RunKeepsInvariant(s: State, actions: seq<Action>)
    requires Inv(s)
    ensures Inv(Run(s, actions))
    decreases |actions|
  {
    hide Step, Inv;
    if actions != [] {
      StepKeepsInvariant(s, actions[0]);
      RunKeepsInvariant(Step(s, actions[0]), actions[1..]);
    }
  }

  // ---- What holds in every run ------------------------------------------

  /**
   Never two controllers: under any timing, deaths and failed kills included, the previous build is
   launched only when the new controller was waited for or was never started.
   */
  lemma NeverTwoControllers(upgradeId: nat, from: BuildId, to: BuildId, actions: seq<Action>)
    requires from != to
    ensures var s := Run(Agreed(upgradeId, from, to), actions);
            && !(Alive(s.successor) && Alive(s.previous))
            && (!s.previous.NotSpawned? ==> SuccessorGone(s))
  {
    hide Run;
    AgreedHoldsInvariant(upgradeId, from, to);
    RunKeepsInvariant(Agreed(upgradeId, from, to), actions);
  }

  /** The record only moves along these edges, and no step changes whose hand-over it is. */
  predicate Edge(before: Status, after: Status) {
    || before == after
    || (before.Started? && (after.Completed? || after.Refused?))
    || ((before.Started? || before.Refused? || before.Completed?) && after.RollingBack?)
    || (before.RollingBack? && after.RolledBack?)
  }

  lemma RecordMovesAlongEdges(s: State, action: Action)
    requires Inv(s)
    ensures Edge(s.record.status, Step(s, action).record.status)
    ensures Step(s, action).record == s.record.(status := Step(s, action).record.status)
  {
  }

  /**
   A successful outcome names the controller that stored the status, for good: `NewServes` only with
   `completed` stored by the new controller and the previous build never launched,
   `PreviousRestored` only with `rolled_back` stored by the restored controller and the new one gone.
   */
  lemma {:induction false} OutcomeIsTrueForGood(s: State, actions: seq<Action>)
    requires Inv(s) && s.pc.Done? && !s.pc.outcome.HandOverFailed?
    ensures var later := Run(s, actions);
            && later.record == s.record && later.writer == s.writer
            && (s.pc.outcome.NewServes? ==>
                  later.record.status.Completed? && later.writer.NewController? && later.previous.NotSpawned?)
            && (s.pc.outcome.PreviousRestored? ==>
                  later.record.status.RolledBack? && later.writer.RestoredController? && SuccessorGone(later))
    decreases |actions|
  {
    if actions != [] && actions[0] != OldDies {
      SettledStep(s, actions[0]);
      StepKeepsInvariant(s, actions[0]);
      OutcomeIsTrueForGood(Step(s, actions[0]), actions[1..]);
    } else if actions != [] {
      StepKeepsInvariant(s, actions[0]);
      SettledForGood(Step(s, actions[0]), actions[1..]);
    }
  }

  /** The old process takes no further step and the record's status is a final one. */
  predicate Settled(s: State) {
    (s.pc.Done? || s.pc.Dead?) && (s.record.status.Completed? || s.record.status.RolledBack?)
  }

  lemma SettledStep(s: State, action: Action)
    requires Inv(s) && Settled(s)
    ensures var s' := Step(s, action);
            && Settled(s') && s'.record == s.record && s'.writer == s.writer
            && (action != OldDies ==> s'.pc == s.pc)
            && (s.previous.NotSpawned? ==> s'.previous.NotSpawned?)
            && (SuccessorGone(s) ==> SuccessorGone(s'))
  {
  }

  lemma {:induction false} SettledForGood(s: State, actions: seq<Action>)
    requires Inv(s) && Settled(s)
    ensures var later := Run(s, actions);
            && later.record == s.record && later.writer == s.writer
            && (s.previous.NotSpawned? ==> later.previous.NotSpawned?)
            && (SuccessorGone(s) ==> SuccessorGone(later))
    decreases |actions|
  {
    hide Step, Inv, Settled, SuccessorGone;
    if actions != [] {
      SettledStep(s, actions[0]);
      StepKeepsInvariant(s, actions[0]);
      SettledForGood(Step(s, actions[0]), actions[1..]);
    }
  }

  // ---- When `completed` is final ----------------------------------------

  /** The old process will see `completed`, or will see nothing any more. */
  predicate Unrevoked(s: State) {
    s.pc.PollRecord? || s.pc.Done? || s.pc.Dead?
  }

  lemma UnrevokedStep(s: State, action: Action)
    requires Inv(s) && s.record.status.Completed? && Unrevoked(s) && action != OldCannotRead
    ensures Step(s, action).record.status.Completed? && Unrevoked(Step(s, action))
  {
  }

  lemma {:induction false} UnrevokedForGood(s: State, actions: seq<Action>)
    requires Inv(s) && s.record.status.Completed? && Unrevoked(s) && OldCannotRead !in actions
    ensures Run(s, actions).record.status.Completed?
    decreases |actions|
  {
    hide Step, Inv;
    if actions != [] {
      UnrevokedStep(s, actions[0]);
      StepKeepsInvariant(s, actions[0]);
      UnrevokedForGood(Step(s, actions[0]), actions[1..]);
    }
  }

  lemma RunFirst(s: State, action: Action, rest: seq<Action>)
    ensures Run(s, [action] + rest) == Run(Step(s, action), rest)
  {
    assert ([action] + rest)[1..] == rest;
  }

  /** The steps after the new controller is gone: store the rollback, launch the previous build, let it report. */
  const RESTORE := [Old(true), Old(true), Old(true), PreviousMoves(false), PreviousMoves(false), Old(true)]

  lemma RestoreRollsBack(s: State)
    requires Inv(s) && s.pc.ReadForRollback?
    ensures Run(s, RESTORE).record.status.RolledBack? && Run(s, RESTORE).pc == Done(PreviousRestored)
  {
    var s1 := Step(s, Old(true));
    var s2 := Step(s1, Old(true));
    var s3 := Step(s2, Old(true));
    var s4 := Step(s3, PreviousMoves(false));
    var s5 := Step(s4, PreviousMoves(false));
    var s6 := Step(s5, Old(true));
    assert RESTORE == [Old(true)] + ([Old(true)] + ([Old(true)] + ([PreviousMoves(false)] + ([PreviousMoves(false)] + ([Old(true)] + [])))));
    RunFirst(s, Old(true), [Old(true)] + ([Old(true)] + ([PreviousMoves(false)] + ([PreviousMoves(false)] + ([Old(true)] + [])))));
    RunFirst(s1, Old(true), [Old(true)] + ([PreviousMoves(false)] + ([PreviousMoves(false)] + ([Old(true)] + []))));
    RunFirst(s2, Old(true), [PreviousMoves(false)] + ([PreviousMoves(false)] + ([Old(true)] + [])));
    RunFirst(s3, PreviousMoves(false), [PreviousMoves(false)] + ([Old(true)] + []));
    RunFirst(s4, PreviousMoves(false), [Old(true)] + []);
    RunFirst(s5, Old(true), []);
  }

  /** A schedule that takes a hand-over past its last look at the record to the rollback. */
  function TowardsRollback(pc: Pc): seq<Action> {
    match pc
    case CheckExit | Wait => [SuccessorDies] + ([Old(true)] + [])
    case CheckDeadline => [Old(false)] + ([Old(true)] + ([Old(true)] + []))
    case Kill => [Old(true)] + ([Old(true)] + [])
    case _ => []
  }

  lemma ReachesRollback(s: State)
    requires Inv(s) && s.record.status.Completed? && !Unrevoked(s) && !s.pc.StoreRollback?
    ensures Run(s, TowardsRollback(s.pc)).pc.ReadForRollback?
  {
    match s.pc
    case CheckExit | Wait =>
      RunFirst(s, SuccessorDies, [Old(true)] + []);
      RunFirst(Step(s, SuccessorDies), Old(true), []);
    case CheckDeadline =>
      var s1 := Step(s, Old(false));
      RunFirst(s, Old(false), [Old(true)] + ([Old(true)] + []));
      RunFirst(s1, Old(true), [Old(true)] + []);
      RunFirst(Step(s1, Old(true)), Old(true), []);
    case Kill =>
      RunFirst(s, Old(true), [Old(true)] + []);
      RunFirst(Step(s, Old(true)), Old(true), []);
    case _ =>
  }

  lemma {:induction false} RunAppends(s: State, first: seq<Action>, second: seq<Action>)
    ensures Run(s, first + second) == Run(Run(s, first), second)
    decreases |first|
  {
    if first == [] {
      assert first + second == second;
    } else {
      assert (first + second)[1..] == first[1..] + second;
      RunAppends(Step(s, first[0]), first[1..], second);
    }
  }

  lemma RevokedRollsBack(s: State) returns (actions: seq<Action>)
    requires Inv(s) && s.record.status.Completed? && !Unrevoked(s)
    ensures Run(s, actions).record.status.RolledBack? && Run(s, actions).pc == Done(PreviousRestored)
    ensures OldCannotRead !in actions
  {
    hide Run;
    if s.pc.StoreRollback? {
      var reading := s.(pc := ReadForRollback);
      RestoreRollsBack(reading);
      actions := RESTORE[1..];
      assert [Old(true)] + actions == RESTORE;
      RunFirst(reading, Old(true), actions);
    } else {
      var prefix := TowardsRollback(s.pc);
      ReachesRollback(s);
      RunKeepsInvariant(s, prefix);
      RestoreRollsBack(Run(s, prefix));
      RunAppends(s, prefix, RESTORE);
      actions := prefix + RESTORE;
    }
  }

  /**
   `completed` is not final by itself: the new controller may complete after the old process last
   looked, and then die or miss the deadline. As long as the record can be read, it stays exactly when the old
   process is about to look, has returned, or is lost; from everywhere else the hand-over can still end
   with the previous build restored. If it may be unreadable, it stays exactly when the old process has returned or
   is lost.
   */
  lemma CompletedIsFinalExactlyWhen(s: State)
    requires Inv(s) && s.record.status.Completed?
    ensures (forall actions | OldCannotRead !in actions :: Run(s, actions).record.status.Completed?) <==> Unrevoked(s)
    ensures (forall actions :: Run(s, actions).record.status.Completed?) <==> s.pc.Done? || s.pc.Dead?
    ensures !s.pc.Done? && !s.pc.Dead? ==> exists actions :: Run(s, actions).pc == Done(PreviousRestored)
  {
    hide Run, Inv;
    if Unrevoked(s) {
      forall actions | OldCannotRead !in actions ensures Run(s, actions).record.status.Completed? { UnrevokedForGood(s, actions); }
    } else {
      var actions := RevokedRollsBack(s);
    }
    if s.pc.Done? || s.pc.Dead? {
      forall actions ensures Run(s, actions).record.status.Completed? { SettledForGood(s, actions); }
    } else {
      var actions := UnseenRollsBack(s);
    }
  }

  /** Also from where the old process is about to look, if the record cannot be read then. */
  lemma UnseenRollsBack(s: State) returns (actions: seq<Action>)
    requires Inv(s) && s.record.status.Completed? && !s.pc.Done? && !s.pc.Dead?
    ensures Run(s, actions).record.status.RolledBack? && Run(s, actions).pc == Done(PreviousRestored)
  {
    hide Run, Inv;
    if s.pc.PollRecord? {
      StepKeepsInvariant(s, OldCannotRead);
      var rest := RevokedRollsBack(Step(s, OldCannotRead));
      RunFirst(s, OldCannotRead, rest);
      actions := [OldCannotRead] + rest;
    } else {
      actions := RevokedRollsBack(s);
    }
  }

  /** Such a state is reached by a new controller that completes between two looks. */
  lemma CompletedCanBeRevoked(upgradeId: nat, from: BuildId, to: BuildId)
    requires from != to
    ensures var s := Run(Agreed(upgradeId, from, to), [Old(true)] + ([Old(true)] + ([SuccessorMoves(false)] + ([SuccessorMoves(false)] + []))));
            s.record.status.Completed? && !Unrevoked(s)
  {
    var s0 := Agreed(upgradeId, from, to);
    var s1 := Step(s0, Old(true));
    var s2 := Step(s1, Old(true));
    var s3 := Step(s2, SuccessorMoves(false));
    RunFirst(s0, Old(true), [Old(true)] + ([SuccessorMoves(false)] + ([SuccessorMoves(false)] + [])));
    RunFirst(s1, Old(true), [SuccessorMoves(false)] + ([SuccessorMoves(false)] + []));
    RunFirst(s2, SuccessorMoves(false), [SuccessorMoves(false)] + []);
    RunFirst(s3, SuccessorMoves(false), []);
  }

  // ---- A new controller that misses a workload --------------------------

  /** The new controller has stored `completed`, or is about to. */
  predicate Completing(s: State) {
    s.record.status.Completed? || (s.successor.Storing? && s.successor.next.status.Completed?)
  }

  lemma CompletingOnlyIfComplete(s: State, action: Action)
    requires Inv(s) && !Completing(s) && action != SuccessorMoves(false)
    ensures !Completing(Step(s, action))
  {
  }

  lemma {:induction false} NeverCompleting(s: State, actions: seq<Action>)
    requires Inv(s) && !Completing(s) && SuccessorMoves(false) !in actions
    ensures !Completing(Run(s, actions)) && Inv(Run(s, actions))
    decreases |actions|
  {
    hide Step, Inv, Completing;
    if actions != [] {
      assert actions[0] in actions && forall a | a in actions[1..] :: a in actions;
      CompletingOnlyIfComplete(s, actions[0]);
      StepKeepsInvariant(s, actions[0]);
      NeverCompleting(Step(s, actions[0]), actions[1..]);
    }
  }

  /** A hand-over to a build that misses a workload whenever it looks never completes, and never returns that it serves. */
  lemma MissingNeverCompletes(upgradeId: nat, from: BuildId, to: BuildId, actions: seq<Action>)
    requires from != to && SuccessorMoves(false) !in actions
    ensures var s := Run(Agreed(upgradeId, from, to), actions);
            !s.record.status.Completed? && !s.successor.Serving? && s.pc != Done(NewServes)
  {
    hide Run;
    AgreedHoldsInvariant(upgradeId, from, to);
    NeverCompleting(Agreed(upgradeId, from, to), actions);
  }

  /** It refuses: its next two steps store that, and with every workload there they store that it completed. */
  lemma MissingRefuses(s: State)
    requires Inv(s) && s.successor.Starting?
    ensures var after := Step(Step(s, SuccessorMoves(true)), SuccessorMoves(true));
            after.record == s.record.(status := Refused) && after.writer.NewController? && after.successor.Refusing?
    ensures var after := Step(Step(s, SuccessorMoves(false)), SuccessorMoves(false));
            after.record == s.record.(status := Completed) && after.writer.NewController? && after.successor.Serving?
  {
  }

  lemma RefusedStep(s: State, action: Action)
    requires Inv(s) && s.successor.Starting? == false && !Completing(s) && !s.successor.NotSpawned? && !s.successor.Storing?
    ensures var s' := Step(s, action);
            !Completing(s') && !s'.successor.Starting? && !s'.successor.NotSpawned? && !s'.successor.Storing?
  {
  }

  /** Refused for good: no run from there completes, not even with the workload back. */
  lemma {:induction false} RefusedForGood(s: State, actions: seq<Action>)
    requires Inv(s) && !Completing(s) && !s.successor.Starting? && !s.successor.NotSpawned? && !s.successor.Storing?
    ensures !Run(s, actions).record.status.Completed? && Run(s, actions).pc != Done(NewServes)
    decreases |actions|
  {
    hide Step;
    if actions != [] {
      RefusedStep(s, actions[0]);
      StepKeepsInvariant(s, actions[0]);
      RefusedForGood(Step(s, actions[0]), actions[1..]);
    }
  }

  const REFUSAL := [Old(true), SuccessorMoves(true), SuccessorMoves(true), SuccessorMoves(true), Old(true), Old(true)]

  lemma RefusalLeadsBack(upgradeId: nat, from: BuildId, to: BuildId)
    requires from != to
    ensures var s := Run(Agreed(upgradeId, from, to), REFUSAL); Inv(s) && s.pc.ReadForRollback? && s.record.status.Refused?
  {
    var s0 := Agreed(upgradeId, from, to);
    var s1 := Step(s0, Old(true));
    var s2 := Step(s1, SuccessorMoves(true));
    var s3 := Step(s2, SuccessorMoves(true));
    var s4 := Step(s3, SuccessorMoves(true));
    var s5 := Step(s4, Old(true));
    assert REFUSAL == [Old(true)] + ([SuccessorMoves(true)] + ([SuccessorMoves(true)] + ([SuccessorMoves(true)] + ([Old(true)] + ([Old(true)] + [])))));
    RunFirst(s0, Old(true), [SuccessorMoves(true)] + ([SuccessorMoves(true)] + ([SuccessorMoves(true)] + ([Old(true)] + ([Old(true)] + [])))));
    RunFirst(s1, SuccessorMoves(true), [SuccessorMoves(true)] + ([SuccessorMoves(true)] + ([Old(true)] + ([Old(true)] + []))));
    RunFirst(s2, SuccessorMoves(true), [SuccessorMoves(true)] + ([Old(true)] + ([Old(true)] + [])));
    RunFirst(s3, SuccessorMoves(true), [Old(true)] + ([Old(true)] + []));
    RunFirst(s4, Old(true), [Old(true)] + []);
    RunFirst(s5, Old(true), []);
    AgreedHoldsInvariant(upgradeId, from, to);
    RunKeepsInvariant(s0, REFUSAL);
  }

  /** And the previous build comes back: a run in which the new controller only ever refuses ends restored. */
  lemma RefusalIsRestored(upgradeId: nat, from: BuildId, to: BuildId)
    requires from != to
    ensures SuccessorMoves(false) !in REFUSAL + RESTORE
    ensures Run(Agreed(upgradeId, from, to), REFUSAL + RESTORE).pc == Done(PreviousRestored)
    ensures Run(Agreed(upgradeId, from, to), REFUSAL + RESTORE).record.status.RolledBack?
  {
    hide Run;
    RefusalLeadsBack(upgradeId, from, to);
    RunAppends(Agreed(upgradeId, from, to), REFUSAL, RESTORE);
    RestoreRollsBack(Run(Agreed(upgradeId, from, to), REFUSAL));
  }

  /** The old process has stopped looking at the new controller. */
  predicate PastLooking(pc: Pc) {
    !pc.LaunchNew? && !pc.PollRecord? && !pc.CheckExit? && !pc.CheckDeadline? && !pc.Kill?
  }

  lemma {:induction false} NeverLooksAgain(s: State, actions: seq<Action>)
    requires PastLooking(s.pc)
    ensures PastLooking(Run(s, actions).pc)
    decreases |actions|
  {
    if actions != [] {
      NeverLooksAgain(Step(s, actions[0]), actions[1..]);
    }
  }

  /** A controller whose refusal was seen is waited for, whatever else happens, and never killed. */
  lemma RefusalIsNotKilled(s: State, works: bool, actions: seq<Action>)
    requires s.pc.PollRecord? && s.record.status.Refused?
    ensures !Run(Step(s, Old(works)), actions).pc.Kill?
  {
    NeverLooksAgain(Step(s, Old(works)), actions);
  }

  /** A new build that cannot even be started leads back as well. */
  lemma FailedLaunchIsRestored(upgradeId: nat, from: BuildId, to: BuildId)
    requires from != to
    ensures Run(Agreed(upgradeId, from, to), [Old(false)] + RESTORE).pc == Done(PreviousRestored)
  {
    hide Run;
    var s := Step(Agreed(upgradeId, from, to), Old(false));
    AgreedHoldsInvariant(upgradeId, from, to);
    StepKeepsInvariant(Agreed(upgradeId, from, to), Old(false));
    RunFirst(Agreed(upgradeId, from, to), Old(false), RESTORE);
    RestoreRollsBack(s);
  }

  // ---- The old process comes to an end ----------------------------------

  predicate Over(pc: Pc) {
    pc.Done? || pc.Dead?
  }

  /** The most steps to the end, if no deadline is extended and nothing has to be waited for. */
  function Ahead(pc: Pc): nat {
    match pc
    case LaunchNew => 12
    case PollRecord => 11
    case CheckExit => 10
    case CheckDeadline => 9
    case Kill => 8
    case Wait => 7
    case ReadForRollback => 6
    case StoreRollback(_) => 5
    case LaunchPrevious => 4
    case PollRestored => 3
    case CheckRestoredExit => 2
    case CheckRestoredDeadline => 1
    case Done(_) | Dead => 0
  }

  /** There is still time, or the killed or refusing controller has not exited. */
  predicate Stalls(s: State, action: Action) {
    && action.Old?
    && (((s.pc.CheckDeadline? || s.pc.CheckRestoredDeadline?) && action.works) || (s.pc.Wait? && !s.successor.Exited?))
  }

  lemma StepComesCloser(s: State, action: Action)
    ensures Ahead(Step(s, action).pc) + (if action.Old? && !Over(s.pc) then 1 else 0)
            <= Ahead(s.pc) + if Stalls(s, action) then 3 else 0
  {
  }

  /** The steps the old process took in a run before its end. */
  function Taken(s: State, actions: seq<Action>): nat
    decreases |actions|
  {
    if actions == [] then 0
    else (if actions[0].Old? && !Over(s.pc) then 1 else 0) + Taken(Step(s, actions[0]), actions[1..])
  }

  function Stalled(s: State, actions: seq<Action>): nat
    decreases |actions|
  {
    if actions == [] then 0 else (if Stalls(s, actions[0]) then 1 else 0) + Stalled(Step(s, actions[0]), actions[1..])
  }

  /**
   Whatever the controllers do, the old process returns: it takes at most twelve steps and three more for each time it
   found there was time left or had to wait for an exit.
   */
  lemma {:induction false} HandOverComesToAnEnd(s: State, actions: seq<Action>)
    ensures Taken(s, actions) + Ahead(Run(s, actions).pc) <= Ahead(s.pc) + 3 * Stalled(s, actions)
    ensures Ahead(s.pc) <= 12 && (Ahead(Run(s, actions).pc) == 0 <==> Over(Run(s, actions).pc))
    decreases |actions|
  {
    hide Step;
    if actions != [] {
      StepComesCloser(s, actions[0]);
      HandOverComesToAnEnd(Step(s, actions[0]), actions[1..]);
    }
  }

  /**
   The old process tells that both builds are gone exactly when the rollback cannot be stored, the previous build does
   not start, is seen to have exited, or is not restored in time.
   */
  lemma FailsExactlyWhen(s: State, works: bool)
    requires Inv(s) && !Over(s.pc)
    ensures Step(s, Old(works)).pc == Done(HandOverFailed)
            <==> if s.pc.CheckRestoredExit? then works && s.previous.Exited?
                 else !works && (s.pc.StoreRollback? || s.pc.LaunchPrevious? || s.pc.CheckRestoredDeadline?)
  {
  }

  /** With every workload there, a hand-over can end with the new controller serving. */
  lemma HandOverCanSucceed(upgradeId: nat, from: BuildId, to: BuildId)
    requires from != to
    ensures var s := Run(Agreed(upgradeId, from, to), [Old(true)] + ([SuccessorMoves(false)] + ([SuccessorMoves(false)] + ([Old(true)] + []))));
            s.pc == Done(NewServes) && s.record == UpgradeRecord(upgradeId, Completed, from, to) && s.successor.Serving?
  {
    var s0 := Agreed(upgradeId, from, to);
    var s1 := Step(s0, Old(true));
    var s2 := Step(s1, SuccessorMoves(false));
    var s3 := Step(s2, SuccessorMoves(false));
    RunFirst(s0, Old(true), [SuccessorMoves(false)] + ([SuccessorMoves(false)] + ([Old(true)] + [])));
    RunFirst(s1, SuccessorMoves(false), [SuccessorMoves(false)] + ([Old(true)] + []));
    RunFirst(s2, SuccessorMoves(false), [Old(true)] + []);
    RunFirst(s3, Old(true), []);
  }

  // ---- The client that follows ------------------------------------------

  predicate IsFinal(status: Status) {
    status.Completed? || status.RolledBack?
  }

  /** Reply `i` is the first that reports the follower's own hand-over finished. */
  ghost predicate ReportsAt(replies: seq<Option<UpgradeRecord>>, upgradeId: nat, i: nat) {
    && i < |replies| && Finishes(replies[i], upgradeId)
    && forall k | 0 <= k < i :: !Finishes(replies[k], upgradeId)
  }

  predicate Finishes(reply: Option<UpgradeRecord>, upgradeId: nat) {
    reply.Some? && reply.value.upgradeId == upgradeId && IsFinal(reply.value.status)
  }

  /**
   `follow_upgrade`: what the API answers each time it is asked (`None`: no answer or no record); the deadline
   passes after the last. Success is exactly a first final reply of its own hand-over that
   says `completed`.
   */
  method FollowUpgrade(upgradeId: nat, replies: seq<Option<UpgradeRecord>>) returns (succeeded: bool)
    ensures succeeded <==> exists i: nat :: ReportsAt(replies, upgradeId, i) && replies[i].value.status.Completed?
  {
    var asked := 0;
    while asked < |replies|
      invariant 0 <= asked <= |replies|
      invariant forall k | 0 <= k < asked :: !Finishes(replies[k], upgradeId)
    {
      if Finishes(replies[asked], upgradeId) {
        assert ReportsAt(replies, upgradeId, asked);
        assert forall i: nat | ReportsAt(replies, upgradeId, i) :: i == asked;
        return replies[asked].value.status.Completed?;
      }
      asked := asked + 1;
    }
    return false;
  }

  /** Replies read at later and later moments of one hand-over; each is missing or the record at its moment. */
  ghost predicate RepliesOf(start: State, actions: seq<Action>, moments: seq<nat>, replies: seq<Option<UpgradeRecord>>) {
    && |moments| == |replies|
    && (forall k | 0 <= k < |moments| :: moments[k] <= |actions|)
    && (forall k, l | 0 <= k < l < |moments| :: moments[k] <= moments[l])
    && (forall k | 0 <= k < |replies| && replies[k].Some? :: replies[k].value == Run(start, actions[..moments[k]]).record)
  }

  /**
   Whatever the hand-over does between the replies: the reply a follower decides on was stored by the controller it
   names, the new one for `completed` and the restored one for `rolled_back`, and for this very hand-over.
   */
  lemma FollowerDecidesOnTheTruth(upgradeId: nat, from: BuildId, to: BuildId, actions: seq<Action>,
                                  moments: seq<nat>, replies: seq<Option<UpgradeRecord>>, i: nat)
    requires from != to && RepliesOf(Agreed(upgradeId, from, to), actions, moments, replies)
    requires ReportsAt(replies, upgradeId, i)
    ensures var s := Run(Agreed(upgradeId, from, to), actions[..moments[i]]);
            && s.record == UpgradeRecord(upgradeId, s.record.status, from, to)
            && (replies[i].value.status.Completed? ==> s.record.status.Completed? && s.writer.NewController?)
            && (!replies[i].value.status.Completed? ==> s.record.status.RolledBack? && s.writer.RestoredController?)
  {
    hide Run;
    AgreedHoldsInvariant(upgradeId, from, to);
    RunKeepsInvariant(Agreed(upgradeId, from, to), actions[..moments[i]]);
    BuildsStay(Agreed(upgradeId, from, to), actions[..moments[i]]);
  }

  predicate StoredByNew(s: State, upgradeId: nat, to: BuildId) {
    s.record.status.Completed? && s.writer.NewController? && s.record.upgradeId == upgradeId && s.record.to == to
  }

  /**
   So a follower that succeeds (`FollowUpgrade`) decided at a moment when the new controller of its own hand-over had
   stored `completed`.
   */
  lemma FollowedSuccessIsTheNewControllers(upgradeId: nat, from: BuildId, to: BuildId, actions: seq<Action>,
                                           moments: seq<nat>, replies: seq<Option<UpgradeRecord>>)
    requires from != to && RepliesOf(Agreed(upgradeId, from, to), actions, moments, replies)
    requires exists i: nat :: ReportsAt(replies, upgradeId, i) && replies[i].value.status.Completed?
    ensures exists i: nat ::
              i < |moments| && StoredByNew(Run(Agreed(upgradeId, from, to), actions[..moments[i]]), upgradeId, to)
  {
    hide Run;
    var i: nat :| ReportsAt(replies, upgradeId, i) && replies[i].value.status.Completed?;
    FollowerDecidesOnTheTruth(upgradeId, from, to, actions, moments, replies, i);
  }

  lemma {:induction false} BuildsStay(s: State, actions: seq<Action>)
    requires Inv(s)
    ensures Run(s, actions).record == s.record.(status := Run(s, actions).record.status)
    decreases |actions|
  {
    hide Step, Inv;
    if actions != [] {
      RecordMovesAlongEdges(s, actions[0]);
      StepKeepsInvariant(s, actions[0]);
      BuildsStay(Step(s, actions[0]), actions[1..]);
    }
  }
}
