/**
 Commands of agent sessions against the job manager, interleaved arbitrarily: calls
 of `exec`, callers that stop waiting, `cancel` on any clone of a session handle, the
 cancellations a dropped command spawns, and whatever else the manager does meanwhile
 (other clients and crashes included).

 A client only ever sees a `View` of a job, read at some earlier moment. The result is
 that what it reports is nevertheless true for good.
 */
module AgentProtocol {
  import opened Options
  import opened JobRecord
  import opened JobServer

  type ExecId = nat
  type TaskId = nat

  /** What a status reply says. */
  datatype View = View(status: JobStatus, phase: Option<CancelPhase>)

  function ViewOf(s: Slot): View {
    View(s.job.status, s.job.phase)
  }

  datatype CommandCancellation =
    | NotStarted(job: JobId)
    | Interrupted(job: JobId)
    | AlreadyEnded(job: JobId, status: JobStatus)
    | Unconfirmed(job: JobId)

  /** What `cancel_job` answers once the job it watches has ended. */
  function Classify(j: JobId, view: View): CommandCancellation {
    if view.status.Cancelled? && view.phase == Some(BeforeExecution) then NotStarted(j)
    else if view.status.Cancelled? then Interrupted(j)
    else AlreadyEnded(j, view.status)
  }

  /** What `exec` tells its caller about a job that ended. */
  datatype Report =
    | Ran(job: JobId, status: JobStatus)
    | CancelledBeforeStart(job: JobId)
    | CancelledWhileRunning(job: JobId)
    | EndedAs(job: JobId, status: JobStatus)

  function ReportOf(j: JobId, view: View): Report {
    match view.status
    case Succeeded | Failed => Ran(j, view.status)
    case Cancelled => if view.phase == Some(BeforeExecution) then CancelledBeforeStart(j) else CancelledWhileRunning(j)
    case _ => EndedAs(j, view.status)
  }

  /**
   One call of `exec`. Its in-flight guard lives from the acknowledgement until the call
   ends: while it waits, and while a status reply is being looked at.
   */
  datatype Exec =
    | Submitted(job: JobId)
    | Waiting(job: JobId)
    | Polled(job: JobId, view: View)
    | Fetching(job: JobId)
    | Over

  predicate Guarded(e: Exec) {
    e.Waiting? || e.Polled?
  }

  datatype Stage =
    | Between
    | Calling(job: JobId, call: CallId)
    | Watching(job: JobId, view: View)

  /** A task cancelling jobs one after the other. */
  datatype Canceller = Canceller(queue: seq<JobId>, stage: Stage)

  datatype Reply = Reply(job: JobId, view: View)

  /** What a task answered. */
  datatype Answer = Answer(task: TaskId, says: CommandCancellation)

  /**
   `running` is the set every clone of the handle shares. The last fields only remember
   what happened: commands acknowledged, seen ended by their guard, abandoned with a
   cancellation spawned (and the task that was), abandoned outside any runtime; answers
   and reports given.
   */
  datatype System = System(
    server: Server,
    replies: map<CallId, Reply>,
    running: set<JobId>,
    execs: map<ExecId, Exec>,
    cancellers: map<TaskId, Canceller>,
    acknowledged: set<JobId>,
    settled: set<JobId>,
    spawned: map<JobId, TaskId>,
    outside: set<JobId>,
    answers: set<Answer>,
    reports: set<Report>)

  datatype Move =
    | Background(step: JobServer.Step)
    | Accept(exec: ExecId, job: JobId, need: Resources, createdAt: nat)
    | Acknowledge(exec: ExecId)
    | Poll(exec: ExecId)
    | Handle(exec: ExecId, late: bool, task: TaskId)
    | PollFails(exec: ExecId, task: TaskId)
    | DropCaller(exec: ExecId, inRuntime: bool, task: TaskId)
    | Fetch(exec: ExecId)
    | CancelAll(task: TaskId, order: seq<JobId>)
    | CallCancel(task: TaskId, call: CallId)
    | CallFails(task: TaskId)
    | Complete(call: CallId)
    | Receive(task: TaskId)
    | Watch(task: TaskId)
    | GiveUpWaiting(task: TaskId)

  /** The guard is dropped after its job was seen ended. */
  function Settle(m: System, e: ExecId, j: JobId, view: View, next: Exec): System {
    m.(execs := m.execs[e := next], running := m.running - {j}, settled := m.settled + {j}, reports := m.reports + {ReportOf(j, view)})
  }

  /** The guard is dropped before its job was seen ended: it spawns a cancellation. */
  function Abandon(m: System, e: ExecId, j: JobId, inRuntime: bool, t: TaskId): System {
    var dropped := m.(execs := m.execs[e := Over], running := m.running - {j});
    if inRuntime
    then dropped.(cancellers := m.cancellers[t := Canceller([j], Between)], spawned := m.spawned[j := t])
    else dropped.(outside := m.outside + {j})
  }

  function HandleView(m: System, e: ExecId, j: JobId, view: View, late: bool, t: TaskId): System {
    if view.status.Succeeded? || view.status.Failed? then Settle(m, e, j, view, Fetching(j))
    else if Terminal(view.status) then Settle(m, e, j, view, Over)
    else if late then Abandon(m, e, j, true, t)
    else m.(execs := m.execs[e := Waiting(j)])
  }

  function AnswerWith(m: System, t: TaskId, answer: CommandCancellation): System
    requires t in m.cancellers
  {
    m.(cancellers := m.cancellers[t := m.cancellers[t].(stage := Between)], answers := m.answers + {Answer(t, answer)})
  }

  /** One move of any participant; a move that is not possible changes nothing. */
  ghost function Next(m: System, move: Move): System {
    match move
    case Background(step) => m.(server := Apply(m.server, step))
    case Accept(e, j, need, at) =>
      if e in m.execs || j in m.server.slots then m
      else m.(server := Apply(m.server, Submit(j, need, at)), execs := m.execs[e := Submitted(j)])
    case Acknowledge(e) =>
      if e !in m.execs || !m.execs[e].Submitted? then m
      else m.(execs := m.execs[e := Waiting(m.execs[e].job)], running := m.running + {m.execs[e].job},
              acknowledged := m.acknowledged + {m.execs[e].job})
    case Poll(e) =>
      if e !in m.execs || !m.execs[e].Waiting? || m.execs[e].job !in m.server.slots then m
      else m.(execs := m.execs[e := Polled(m.execs[e].job, ViewOf(m.server.slots[m.execs[e].job]))])
    case Handle(e, late, t) =>
      if e !in m.execs || !m.execs[e].Polled? || t in m.cancellers then m
      else HandleView(m, e, m.execs[e].job, m.execs[e].view, late, t)
    case PollFails(e, t) =>
      if e !in m.execs || !m.execs[e].Waiting? || t in m.cancellers then m
      else Abandon(m, e, m.execs[e].job, true, t)
    case DropCaller(e, inRuntime, t) =>
      if e !in m.execs || t in m.cancellers then m
      else if Guarded(m.execs[e]) then Abandon(m, e, m.execs[e].job, inRuntime, t)
      else m.(execs := m.execs[e := Over])
    case Fetch(e) =>
      if e in m.execs && m.execs[e].Fetching? then m.(execs := m.execs[e := Over]) else m
    case CancelAll(t, order) =>
      if t in m.cancellers || !Enumerates(order, m.running) then m
      else m.(cancellers := m.cancellers[t := Canceller(order, Between)])
    case CallCancel(t, c) =>
      if t !in m.cancellers || !m.cancellers[t].stage.Between? || m.cancellers[t].queue == []
         || c in m.server.calls || c in m.replies then m
      else
        var j := m.cancellers[t].queue[0];
        m.(server := Apply(m.server, BeginCancel(c, j)),
           cancellers := m.cancellers[t := Canceller(m.cancellers[t].queue[1..], Calling(j, c))])
    case CallFails(t) =>
      if t !in m.cancellers || !m.cancellers[t].stage.Between? || m.cancellers[t].queue == [] then m
      else
        m.(cancellers := m.cancellers[t := Canceller(m.cancellers[t].queue[1..], Between)],
           answers := m.answers + {Answer(t, Unconfirmed(m.cancellers[t].queue[0]))})
    case Complete(c) =>
      if c !in m.server.calls || m.server.calls[c].job !in m.server.slots then m
      else
        var after := Apply(m.server, FinishCancel(c));
        var j := m.server.calls[c].job;
        m.(server := after, replies := m.replies[c := Reply(j, ViewOf(after.slots[j]))])
    case Receive(t) =>
      if t !in m.cancellers || !m.cancellers[t].stage.Calling? || m.cancellers[t].stage.call !in m.replies then m
      else
        var reply := m.replies[m.cancellers[t].stage.call];
        if reply.job != m.cancellers[t].stage.job then m
        else m.(cancellers := m.cancellers[t := m.cancellers[t].(stage := Watching(reply.job, reply.view))])
    case Watch(t) =>
      if t !in m.cancellers || !m.cancellers[t].stage.Watching? || m.cancellers[t].stage.job !in m.server.slots then m
      else
        var stage := m.cancellers[t].stage;
        if Terminal(stage.view.status) then AnswerWith(m, t, Classify(stage.job, stage.view))
        else m.(cancellers := m.cancellers[t := m.cancellers[t].(stage := Watching(stage.job, ViewOf(m.server.slots[stage.job])))])
    case GiveUpWaiting(t) =>
      if t !in m.cancellers || m.cancellers[t].stage.Between?
         || (m.cancellers[t].stage.Watching? && Terminal(m.cancellers[t].stage.view.status)) then m
      else AnswerWith(m, t, Unconfirmed(m.cancellers[t].stage.job))
  }

  ghost function Play(m: System, moves: seq<Move>): System
    decreases |moves|
  {
    if moves == [] then m else Play(Next(m, moves[0]), moves[1..])
  }

  function Start(capacity: Resources): System {
    System(Empty(capacity), map[], {}, map[], map[], {}, {}, map[], {}, {}, {})
  }

  // ---- The truth of what is reported ------------------------------------

  /** A view of an ended job is what the job still is. */
  predicate Current(server: Server, j: JobId, view: View) {
    j in server.slots && (Terminal(view.status) ==> view == ViewOf(server.slots[j]))
  }

  /** What an answer claims, read off what really happened to the job. */
  predicate AnswerHolds(server: Server, answer: CommandCancellation) {
    && answer.job in server.slots
    && var slot := server.slots[answer.job];
       match answer
       case NotStarted(_) => slot.job.status.Cancelled? && slot.launches == 0
       case Interrupted(_) => slot.job.status.Cancelled? && slot.launches == 1
       case AlreadyEnded(_, status) => Terminal(status) && !status.Cancelled? && slot.job.status == status
       case Unconfirmed(_) => true
  }

  predicate ReportHolds(server: Server, report: Report) {
    && report.job in server.slots
    && var slot := server.slots[report.job];
       match report
       case Ran(_, status) => (status.Succeeded? || status.Failed?) && slot.job.status == status
       case CancelledBeforeStart(_) => slot.job.status.Cancelled? && slot.launches == 0
       case CancelledWhileRunning(_) => slot.job.status.Cancelled? && slot.launches == 1
       case EndedAs(_, status) => (status.TimedOut? || status.Rejected?) && slot.job.status == status
  }

  lemma ClassifyHolds(server: Server, j: JobId, view: View)
    requires j in server.slots && SlotInv(server.slots[j])
    requires Terminal(view.status) && view == ViewOf(server.slots[j])
    ensures AnswerHolds(server, Classify(j, view)) && Classify(j, view).job == j
    ensures ReportHolds(server, ReportOf(j, view)) && ReportOf(j, view).job == j
  {
  }

  /** The later server still has every job, and every ended job as it ended. */
  predicate Extends(later: Server, server: Server) {
    forall j | j in server.slots ::
      && j in later.slots
      && (Terminal(server.slots[j].job.status) ==> FateOf(later.slots[j]) == FateOf(server.slots[j]))
  }

  lemma StepExtends(server: Server, step: JobServer.Step)
    requires ServerInv(server)
    ensures Extends(Apply(server, step), server) && ServerInv(Apply(server, step))
  {
    hide Act, SlotInv, Total, VerdictFor, Resolve, FateOf, ServerInv;
    StepKeepsInvariant(server, step);
    forall j | j in server.slots && Terminal(server.slots[j].job.status)
      ensures j in Apply(server, step).slots && FateOf(Apply(server, step).slots[j]) == FateOf(server.slots[j])
    {
      StepFreezesEnded(server, step, j);
    }
  }

  lemma ViewSurvives(server: Server, later: Server, j: JobId, view: View)
    requires Extends(later, server) && Current(server, j, view)
    ensures Current(later, j, view)
  {
  }

  lemma AnswerSurvives(server: Server, later: Server, answer: CommandCancellation)
    requires Extends(later, server) && AnswerHolds(server, answer)
    ensures AnswerHolds(later, answer)
  {
  }

  lemma ReportSurvives(server: Server, later: Server, report: Report)
    requires Extends(later, server) && ReportHolds(server, report)
    ensures ReportHolds(later, report)
  {
  }

  // ---- The invariant ----------------------------------------------------

  /** Everything said or remembered about a job is true of the server. */
  ghost predicate Truthful(m: System) {
    && (forall e | e in m.execs && !m.execs[e].Over? :: m.execs[e].job in m.server.slots)
    && (forall e | e in m.execs && m.execs[e].Polled? :: Current(m.server, m.execs[e].job, m.execs[e].view))
    && (forall c | c in m.replies :: Current(m.server, m.replies[c].job, m.replies[c].view))
    && (forall t | t in m.cancellers && m.cancellers[t].stage.Watching? ::
          Current(m.server, m.cancellers[t].stage.job, m.cancellers[t].stage.view))
    && (forall t | t in m.cancellers && m.cancellers[t].stage.Calling? :: m.cancellers[t].stage.job in m.server.slots)
    && (forall t, j | t in m.cancellers && j in m.cancellers[t].queue :: j in m.server.slots)
    && (forall j | j in m.settled :: j in m.server.slots && Terminal(m.server.slots[j].job.status))
    && (forall a | a in m.answers :: AnswerHolds(m.server, a.says))
    && (forall r | r in m.reports :: ReportHolds(m.server, r))
  }

  /** Two calls never wait for one job, and a job still only submitted is not acknowledged. */
  ghost predicate OneCallPerJob(m: System) {
    && (forall e, f | e in m.execs && f in m.execs && !m.execs[e].Over? && !m.execs[f].Over? && m.execs[e].job == m.execs[f].job :: e == f)
    && (forall e | e in m.execs && m.execs[e].Submitted? :: m.execs[e].job !in m.acknowledged)
    && (forall e | e in m.execs && m.execs[e].Fetching? :: m.execs[e].job in m.settled)
    && (forall j | j in m.acknowledged :: j in m.server.slots)
  }

  /** `running` is exactly the jobs whose in-flight guard lives. */
  ghost predicate RunningIsGuarded(m: System) {
    forall j :: j in m.running <==> HasGuard(m.execs, j)
  }

  ghost predicate HasGuard(execs: map<ExecId, Exec>, j: JobId) {
    exists e :: e in execs && Guarded(execs[e]) && execs[e].job == j
  }

  /** Every acknowledged job is in exactly one of the four groups. */
  ghost predicate Accounted(m: System) {
    && m.acknowledged == m.running + m.settled + m.spawned.Keys + m.outside
    && m.running !! m.settled !! m.spawned.Keys !! m.outside
  }

  /** The task still has the job ahead of it or in hand. */
  predicate InHand(c: Canceller, j: JobId) {
    j in c.queue || (!c.stage.Between? && c.stage.job == j)
  }

  ghost predicate HasAnswered(answers: set<Answer>, t: TaskId, j: JobId) {
    exists a :: a in answers && a.task == t && a.says.job == j
  }

  /** The very task the drop spawned still has the job, or has answered for it. */
  ghost predicate Pursued(m: System, j: JobId)
    requires j in m.spawned
  {
    var t := m.spawned[j];
    t in m.cancellers && (InHand(m.cancellers[t], j) || HasAnswered(m.answers, t, j))
  }

  ghost predicate AllPursued(m: System) {
    forall j | j in m.spawned :: Pursued(m, j)
  }

  ghost predicate SystemInv(m: System) {
    ServerInv(m.server) && Truthful(m) && OneCallPerJob(m) && RunningIsGuarded(m) && Accounted(m) && AllPursued(m)
  }

  // ---- Every move keeps it ----------------------------------------------

  lemma StartHoldsInvariant(capacity: Resources)
    requires Fits(capacity, WORD)
    ensures SystemInv(Start(capacity))
  {
    EmptyHoldsInvariant(capacity);
  }

  /** The server may move on under everyone's feet. */
  lemma ServerAdvances(m: System, later: Server)
    requires SystemInv(m) && ServerInv(later) && Extends(later, m.server)
    ensures SystemInv(m.(server := later))
  {
    hide SlotInv, Total, Current, AnswerHolds, ReportHolds, FateOf;
    forall j, view | Current(m.server, j, view) ensures Current(later, j, view) {
      ViewSurvives(m.server, later, j, view);
    }
    forall a | a in m.answers ensures AnswerHolds(later, a.says) {
      AnswerSurvives(m.server, later, a.says);
    }
    forall r | r in m.reports ensures ReportHolds(later, r) {
      ReportSurvives(m.server, later, r);
    }
    forall j | j in m.settled ensures j in later.slots && Terminal(later.slots[j].job.status) {
      SettledStays(m.server, later, j);
    }
    assert RunningIsGuarded(m.(server := later));
    assert AllPursued(m.(server := later)) by {
      forall j | j in m.spawned ensures Pursued(m.(server := later), j) { assert Pursued(m, j); }
    }
  }

  lemma SettledStays(server: Server, later: Server, j: JobId)
    requires Extends(later, server) && j in server.slots && Terminal(server.slots[j].job.status)
    ensures j in later.slots && Terminal(later.slots[j].job.status)
  {
  }

  // The moves of one call of `exec`.

  /** A call that goes from `Guarded` to `next` changes the guards of its own job only. */
  lemma GuardsAfter(m: System, e: ExecId, next: Exec, k: JobId)
    requires OneCallPerJob(m) && e in m.execs && !m.execs[e].Over?
    requires next.Over? || next.job == m.execs[e].job
    ensures HasGuard(m.execs[e := next], k)
            <==> if k == m.execs[e].job then Guarded(next) else HasGuard(m.execs, k)
  {
    var after := m.execs[e := next];
    if k == m.execs[e].job {
      if Guarded(next) { assert e in after && Guarded(after[e]) && after[e].job == k; }
    } else if HasGuard(m.execs, k) {
      var f :| f in m.execs && Guarded(m.execs[f]) && m.execs[f].job == k;
      assert f in after && Guarded(after[f]) && after[f].job == k;
    }
  }

  lemma GuardsFollow(m: System, e: ExecId, next: Exec, m': System)
    requires SystemInv(m) && e in m.execs && !m.execs[e].Over?
    requires next.Over? || next.job == m.execs[e].job
    requires m'.execs == m.execs[e := next]
    requires m'.running == if Guarded(next) then m.running + {m.execs[e].job} else m.running - {m.execs[e].job}
    ensures RunningIsGuarded(m')
  {
    hide HasGuard;
    forall k ensures k in m'.running <==> HasGuard(m'.execs, k) {
      GuardsAfter(m, e, next, k);
    }
  }

  lemma PursuitKept(m: System, m': System)
    requires AllPursued(m) && m'.spawned == m.spawned && m.answers <= m'.answers
    requires forall t | t in m.cancellers :: t in m'.cancellers && m'.cancellers[t] == m.cancellers[t]
    ensures AllPursued(m')
  {
    forall j | j in m'.spawned ensures Pursued(m', j) {
      assert Pursued(m, j);
      AnsweredStays(m.answers, m'.answers, m.spawned[j], j);
    }
  }

  lemma AnsweredStays(answers: set<Answer>, more: set<Answer>, t: TaskId, j: JobId)
    requires answers <= more
    ensures HasAnswered(answers, t, j) ==> HasAnswered(more, t, j)
  {
  }

  lemma SettleKeepsInvariant(m: System, e: ExecId, next: Exec)
    requires SystemInv(m) && e in m.execs && m.execs[e].Polled? && Terminal(m.execs[e].view.status)
    requires next.Over? || next == Fetching(m.execs[e].job)
    ensures SystemInv(Settle(m, e, m.execs[e].job, m.execs[e].view, next))
  {
    hide ServerInv, Truthful, OneCallPerJob, HasGuard, Pursued;
    var j, view := m.execs[e].job, m.execs[e].view;
    var m' := Settle(m, e, j, view, next);
    GuardIsRunning(m, e);
    GuardsFollow(m, e, next, m');
    PursuitKept(m, m');
    SettleIsTruthful(m, e, next);
    SettleKeepsOneCall(m, e, next);
  }

  lemma SettleIsTruthful(m: System, e: ExecId, next: Exec)
    requires ServerInv(m.server) && Truthful(m) && e in m.execs && m.execs[e].Polled? && Terminal(m.execs[e].view.status)
    requires next.Over? || next == Fetching(m.execs[e].job)
    ensures Truthful(Settle(m, e, m.execs[e].job, m.execs[e].view, next))
  {
    hide ServerInv, Current, AnswerHolds, ReportHolds;
    EndedViewHolds(m.server, m.execs[e].job, m.execs[e].view);
  }

  lemma SettleKeepsOneCall(m: System, e: ExecId, next: Exec)
    requires OneCallPerJob(m) && e in m.execs && m.execs[e].Polled?
    requires next.Over? || next == Fetching(m.execs[e].job)
    ensures OneCallPerJob(Settle(m, e, m.execs[e].job, m.execs[e].view, next))
  {
  }

  lemma GuardIsRunning(m: System, e: ExecId)
    requires RunningIsGuarded(m) && e in m.execs && Guarded(m.execs[e])
    ensures m.execs[e].job in m.running
  {
    assert HasGuard(m.execs, m.execs[e].job);
  }

  lemma EndedViewHolds(server: Server, j: JobId, view: View)
    requires ServerInv(server) && Current(server, j, view) && Terminal(view.status)
    ensures j in server.slots && Terminal(server.slots[j].job.status)
    ensures AnswerHolds(server, Classify(j, view)) && Classify(j, view).job == j
    ensures ReportHolds(server, ReportOf(j, view)) && ReportOf(j, view).job == j
  {
    ClassifyHolds(server, j, view);
  }

  lemma AbandonIsPursued(m: System, e: ExecId, inRuntime: bool, t: TaskId)
    requires AllPursued(m) && e in m.execs && Guarded(m.execs[e]) && t !in m.cancellers
    ensures AllPursued(Abandon(m, e, m.execs[e].job, inRuntime, t))
  {
    var j := m.execs[e].job;
    var m' := Abandon(m, e, j, inRuntime, t);
    PursuitKept(m, m'.(spawned := m.spawned));
    forall k | k in m'.spawned ensures Pursued(m', k) {
      if k == j && inRuntime {
        assert t in m'.cancellers && InHand(m'.cancellers[t], j);
      } else {
        assert k in m.spawned && Pursued(m'.(spawned := m.spawned), k);
      }
    }
  }

  lemma AbandonIsTruthful(m: System, e: ExecId, inRuntime: bool, t: TaskId)
    requires Truthful(m) && e in m.execs && Guarded(m.execs[e]) && t !in m.cancellers
    ensures Truthful(Abandon(m, e, m.execs[e].job, inRuntime, t))
  {
    hide Current, AnswerHolds, ReportHolds;
  }

  /** What is one call's stays one call's when that call ends. */
  lemma EndKeepsOneCall(m: System, e: ExecId, m': System)
    requires OneCallPerJob(m) && e in m.execs && m'.execs == m.execs[e := Over]
    requires m'.acknowledged == m.acknowledged && m.settled <= m'.settled && m'.server == m.server
    ensures OneCallPerJob(m')
  {
  }

  lemma AbandonKeepsInvariant(m: System, e: ExecId, inRuntime: bool, t: TaskId)
    requires SystemInv(m) && e in m.execs && Guarded(m.execs[e]) && t !in m.cancellers
    ensures SystemInv(Abandon(m, e, m.execs[e].job, inRuntime, t))
  {
    hide ServerInv, Truthful, OneCallPerJob, AllPursued;
    var j := m.execs[e].job;
    var m' := Abandon(m, e, j, inRuntime, t);
    assert j in m.running by { assert HasGuard(m.execs, j); }
    GuardsFollow(m, e, Over, m');
    AbandonIsPursued(m, e, inRuntime, t);
    AbandonIsTruthful(m, e, inRuntime, t);
    EndKeepsOneCall(m, e, m');
  }

  /** A call that keeps or gets its guard. */
  lemma WaitKeepsInvariant(m: System, e: ExecId, next: Exec)
    requires SystemInv(m) && e in m.execs && Guarded(m.execs[e]) && Guarded(next) && next.job == m.execs[e].job
    requires next.Polled? ==> Current(m.server, next.job, next.view)
    ensures SystemInv(m.(execs := m.execs[e := next]))
  {
    hide ServerInv, Truthful, OneCallPerJob, HasGuard, Pursued;
    var m' := m.(execs := m.execs[e := next]);
    GuardIsRunning(m, e);
    CallIsKnown(m, e);
    CallIsTruthful(m, e, next);
    WaitKeepsOneCall(m, e, next);
    assert m.running + {m.execs[e].job} == m.running;
    GuardsFollow(m, e, next, m');
    PursuitKept(m, m');
  }

  lemma CallIsKnown(m: System, e: ExecId)
    requires Truthful(m) && e in m.execs && !m.execs[e].Over?
    ensures m.execs[e].job in m.server.slots
  {
  }

  lemma WaitKeepsOneCall(m: System, e: ExecId, next: Exec)
    requires OneCallPerJob(m) && e in m.execs && Guarded(m.execs[e]) && Guarded(next) && next.job == m.execs[e].job
    ensures OneCallPerJob(m.(execs := m.execs[e := next]))
  {
  }

  lemma AcknowledgeKeepsInvariant(m: System, e: ExecId)
    requires SystemInv(m)
    ensures SystemInv(Next(m, Acknowledge(e)))
  {
    hide ServerInv, Truthful, HasGuard, Pursued;
    if e in m.execs && m.execs[e].Submitted? {
      var m' := Next(m, Acknowledge(e));
      GuardsFollow(m, e, Waiting(m.execs[e].job), m');
      PursuitKept(m, m');
      AcknowledgeIsTruthful(m, e);
    }
  }

  lemma AcknowledgeIsTruthful(m: System, e: ExecId)
    requires Truthful(m)
    ensures Truthful(Next(m, Acknowledge(e)))
    ensures e in m.execs && m.execs[e].Submitted? ==> m.execs[e].job in m.server.slots
  {
    hide Current, AnswerHolds, ReportHolds;
  }

  /** A call without a guard that ends. */
  lemma FinishKeepsInvariant(m: System, e: ExecId)
    requires SystemInv(m) && e in m.execs && !Guarded(m.execs[e])
    ensures SystemInv(m.(execs := m.execs[e := Over]))
  {
    hide ServerInv, Truthful, OneCallPerJob, HasGuard, Pursued;
    var m' := m.(execs := m.execs[e := Over]);
    if m.execs[e].Over? {
      assert m' == m;
    } else {
      NotGuardedYet(m, e);
      assert m.running - {m.execs[e].job} == m.running;
      GuardsFollow(m, e, Over, m');
      PursuitKept(m, m');
      EndKeepsOneCall(m, e, m');
      CallIsTruthful(m, e, Over);
    }
  }

  lemma NotGuardedYet(m: System, e: ExecId)
    requires OneCallPerJob(m) && RunningIsGuarded(m) && e in m.execs && !Guarded(m.execs[e]) && !m.execs[e].Over?
    ensures m.execs[e].job !in m.running
  {
    assert !HasGuard(m.execs, m.execs[e].job);
  }

  lemma CallIsTruthful(m: System, e: ExecId, next: Exec)
    requires Truthful(m) && (!next.Over? ==> next.job in m.server.slots)
    requires next.Polled? ==> Current(m.server, next.job, next.view)
    ensures Truthful(m.(execs := m.execs[e := next]))
  {
    hide Current, AnswerHolds, ReportHolds;
  }

  lemma SubmitAddsNoGuard(execs: map<ExecId, Exec>, e: ExecId, j: JobId, k: JobId)
    requires e !in execs
    ensures HasGuard(execs[e := Submitted(j)], k) <==> HasGuard(execs, k)
  {
    if HasGuard(execs, k) {
      var f :| f in execs && Guarded(execs[f]) && execs[f].job == k;
      assert f in execs[e := Submitted(j)] && Guarded(execs[e := Submitted(j)][f]);
    }
  }

  /** A new call for a job no call and no acknowledgement knows. */
  lemma NewCallKeepsInvariant(m: System, e: ExecId, j: JobId)
    requires SystemInv(m) && e !in m.execs && j in m.server.slots && j !in m.acknowledged
    requires forall f | f in m.execs && !m.execs[f].Over? :: m.execs[f].job != j
    ensures SystemInv(m.(execs := m.execs[e := Submitted(j)]))
  {
    hide ServerInv, Truthful, HasGuard, Pursued;
    var m' := m.(execs := m.execs[e := Submitted(j)]);
    CallIsTruthful(m, e, Submitted(j));
    forall k ensures k in m'.running <==> HasGuard(m'.execs, k) {
      SubmitAddsNoGuard(m.execs, e, j, k);
    }
    PursuitKept(m, m');
  }

  lemma AcceptKeepsInvariant(m: System, e: ExecId, j: JobId, need: Resources, at: nat)
    requires SystemInv(m)
    ensures SystemInv(Next(m, Accept(e, j, need, at)))
  {
    hide SlotInv, Total, Current, AnswerHolds, ReportHolds, ServerInv, AllPursued, RunningIsGuarded, Accounted;
    if e !in m.execs && j !in m.server.slots {
      var after := Apply(m.server, Submit(j, need, at));
      StepExtends(m.server, Submit(j, need, at));
      ServerAdvances(m, after);
      NewCallKeepsInvariant(m.(server := after), e, j);
    }
  }

  lemma ExecMoveKeepsInvariant(m: System, move: Move)
    requires SystemInv(m)
    requires move.Poll? || move.Handle? || move.PollFails? || move.DropCaller? || move.Fetch?
    ensures SystemInv(Next(m, move))
  {
    hide SystemInv, SlotInv, Total, AnswerHolds, ReportHolds, Settle, Abandon;
    match move
    case Poll(e) =>
      if e in m.execs && m.execs[e].Waiting? && m.execs[e].job in m.server.slots {
        WaitKeepsInvariant(m, e, Polled(m.execs[e].job, ViewOf(m.server.slots[m.execs[e].job])));
      }
    case Handle(e, late, t) =>
      if e in m.execs && m.execs[e].Polled? && t !in m.cancellers {
        var j, view := m.execs[e].job, m.execs[e].view;
        if view.status.Succeeded? || view.status.Failed? {
          SettleKeepsInvariant(m, e, Fetching(j));
        } else if Terminal(view.status) {
          SettleKeepsInvariant(m, e, Over);
        } else if late {
          AbandonKeepsInvariant(m, e, true, t);
        } else {
          WaitKeepsInvariant(m, e, Waiting(j));
        }
      }
    case PollFails(e, t) =>
      if e in m.execs && m.execs[e].Waiting? && t !in m.cancellers { AbandonKeepsInvariant(m, e, true, t); }
    case DropCaller(e, inRuntime, t) =>
      if e in m.execs && t !in m.cancellers {
        if Guarded(m.execs[e]) { AbandonKeepsInvariant(m, e, inRuntime, t); } else { FinishKeepsInvariant(m, e); }
      }
    case Fetch(e) => if e in m.execs && m.execs[e].Fetching? { FinishKeepsInvariant(m, e); }
  }

  // The moves of a cancelling task.

  /** Task `t` lets go of a job only with an answer about it. */
  lemma PursuitMoves(m: System, m': System, t: TaskId)
    requires AllPursued(m) && m'.spawned == m.spawned && m.answers <= m'.answers
    requires t in m.cancellers && t in m'.cancellers
    requires forall u | u in m.cancellers && u != t :: u in m'.cancellers && m'.cancellers[u] == m.cancellers[u]
    requires forall j | InHand(m.cancellers[t], j) :: InHand(m'.cancellers[t], j) || HasAnswered(m'.answers, t, j)
    ensures AllPursued(m')
  {
    hide InHand, HasAnswered;
    forall j | j in m'.spawned ensures Pursued(m', j) {
      assert Pursued(m, j);
      AnsweredStays(m.answers, m'.answers, m.spawned[j], j);
    }
  }

  /** A change to one task's work and to the answers, and to nothing else. */
  lemma TaskKeepsInvariant(m: System, t: TaskId, work: Canceller, answers: set<Answer>)
    requires SystemInv(m) && t in m.cancellers && m.answers <= answers
    requires forall a | a in answers :: AnswerHolds(m.server, a.says)
    requires forall j | InHand(m.cancellers[t], j) :: InHand(work, j) || HasAnswered(answers, t, j)
    requires forall j | j in work.queue :: j in m.server.slots
    requires work.stage.Watching? ==> Current(m.server, work.stage.job, work.stage.view)
    requires work.stage.Calling? ==> work.stage.job in m.server.slots
    ensures SystemInv(m.(cancellers := m.cancellers[t := work], answers := answers))
  {
    hide SlotInv, Total, Current, AnswerHolds, ReportHolds, HasGuard, ServerInv;
    PursuitMoves(m, m.(cancellers := m.cancellers[t := work], answers := answers), t);
  }

  lemma AnswerKeepsInvariant(m: System, t: TaskId, answer: CommandCancellation)
    requires SystemInv(m) && t in m.cancellers && !m.cancellers[t].stage.Between?
    requires AnswerHolds(m.server, answer) && answer.job == m.cancellers[t].stage.job
    ensures SystemInv(AnswerWith(m, t, answer))
  {
    hide ServerInv, RunningIsGuarded, Accounted, AllPursued, OneCallPerJob;
    var answers := m.answers + {Answer(t, answer)};
    assert Answer(t, answer) in answers;
    TaskKeepsInvariant(m, t, m.cancellers[t].(stage := Between), answers);
  }

  lemma CallCancelKeepsInvariant(m: System, t: TaskId, c: CallId)
    requires SystemInv(m)
    ensures SystemInv(Next(m, CallCancel(t, c)))
  {
    hide ServerInv, RunningIsGuarded, Accounted, AllPursued, OneCallPerJob, Current, AnswerHolds, ReportHolds;
    if && t in m.cancellers && m.cancellers[t].stage.Between? && m.cancellers[t].queue != []
       && c !in m.server.calls && c !in m.replies {
      var j := m.cancellers[t].queue[0];
      assert j in m.cancellers[t].queue;
      StepExtends(m.server, BeginCancel(c, j));
      ServerAdvances(m, Apply(m.server, BeginCancel(c, j)));
      var moved := m.(server := Apply(m.server, BeginCancel(c, j)));
      assert moved.(answers := moved.answers) == moved;
      TaskKeepsInvariant(moved, t, Canceller(m.cancellers[t].queue[1..], Calling(j, c)), moved.answers);
    }
  }

  /** A request that is refused, or never arrives, is answered for at once. */
  lemma CallFailsKeepsInvariant(m: System, t: TaskId)
    requires SystemInv(m)
    ensures SystemInv(Next(m, CallFails(t)))
  {
    hide ServerInv, RunningIsGuarded, Accounted, AllPursued, OneCallPerJob, Current, ReportHolds;
    if t in m.cancellers && m.cancellers[t].stage.Between? && m.cancellers[t].queue != [] {
      var queue := m.cancellers[t].queue;
      var answers := m.answers + {Answer(t, Unconfirmed(queue[0]))};
      assert queue[0] in queue && queue == [queue[0]] + queue[1..];
      assert Answer(t, Unconfirmed(queue[0])) in answers;
      TaskKeepsInvariant(m, t, Canceller(queue[1..], Between), answers);
    }
  }

  lemma CompleteKeepsInvariant(m: System, c: CallId)
    requires SystemInv(m)
    ensures SystemInv(Next(m, Complete(c)))
  {
    hide ServerInv, SlotInv, RunningIsGuarded, Accounted, AllPursued, OneCallPerJob, AnswerHolds, ReportHolds, CancelSlot;
    if c in m.server.calls && m.server.calls[c].job in m.server.slots {
      StepExtends(m.server, FinishCancel(c));
      ServerAdvances(m, Apply(m.server, FinishCancel(c)));
      var moved := m.(server := Apply(m.server, FinishCancel(c)));
      var j := m.server.calls[c].job;
      ReplyKeepsInvariant(moved, c, j);
    }
  }

  lemma ReplyKeepsInvariant(m: System, c: CallId, j: JobId)
    requires SystemInv(m) && j in m.server.slots
    ensures SystemInv(m.(replies := m.replies[c := Reply(j, ViewOf(m.server.slots[j]))]))
  {
    hide ServerInv, SlotInv, AnswerHolds, ReportHolds;
    PursuitKept(m, m.(replies := m.replies[c := Reply(j, ViewOf(m.server.slots[j]))]));
  }

  lemma CancelAllKeepsInvariant(m: System, t: TaskId, order: seq<JobId>)
    requires SystemInv(m)
    ensures SystemInv(Next(m, CancelAll(t, order)))
  {
    hide ServerInv, Truthful, HasGuard, Pursued;
    if t !in m.cancellers && Enumerates(order, m.running) {
      var m' := Next(m, CancelAll(t, order));
      forall j | j in order ensures j in m.server.slots { assert j in m.running; }
      PursuitKept(m, m');
      NewTaskIsTruthful(m, t, order);
    }
  }

  lemma NewTaskIsTruthful(m: System, t: TaskId, order: seq<JobId>)
    requires Truthful(m) && t !in m.cancellers && forall j | j in order :: j in m.server.slots
    ensures Truthful(m.(cancellers := m.cancellers[t := Canceller(order, Between)]))
  {
    hide Current, AnswerHolds, ReportHolds;
  }

  /** A task that goes on watching the job it has in hand. */
  lemma WatchingKeepsInvariant(m: System, t: TaskId, view: View)
    requires SystemInv(m) && t in m.cancellers && !m.cancellers[t].stage.Between?
    requires Current(m.server, m.cancellers[t].stage.job, view)
    ensures SystemInv(m.(cancellers := m.cancellers[t := m.cancellers[t].(stage := Watching(m.cancellers[t].stage.job, view))]))
  {
    hide ServerInv, RunningIsGuarded, Accounted, AllPursued, OneCallPerJob, ReportHolds, AnswerHolds, Current;
    var work := m.cancellers[t].(stage := Watching(m.cancellers[t].stage.job, view));
    TaskKeepsInvariant(m, t, work, m.answers);
    assert m.(cancellers := m.cancellers[t := work], answers := m.answers) == m.(cancellers := m.cancellers[t := work]);
  }

  lemma ReceiveKeepsInvariant(m: System, t: TaskId)
    requires SystemInv(m)
    ensures SystemInv(Next(m, Receive(t)))
  {
    hide ServerInv, RunningIsGuarded, Accounted, AllPursued, OneCallPerJob, ReportHolds, AnswerHolds, Current;
    if t in m.cancellers && m.cancellers[t].stage.Calling? && m.cancellers[t].stage.call in m.replies {
      var reply := m.replies[m.cancellers[t].stage.call];
      if reply.job == m.cancellers[t].stage.job {
        WatchingKeepsInvariant(m, t, reply.view);
      }
    }
  }

  lemma LookKeepsInvariant(m: System, t: TaskId)
    requires SystemInv(m)
    ensures SystemInv(Next(m, Watch(t)))
  {
    hide ServerInv, RunningIsGuarded, Accounted, AllPursued, OneCallPerJob, ReportHolds, AnswerHolds, Classify;
    if t in m.cancellers && m.cancellers[t].stage.Watching? && m.cancellers[t].stage.job in m.server.slots {
      var stage := m.cancellers[t].stage;
      if Terminal(stage.view.status) {
        EndedViewHolds(m.server, stage.job, stage.view);
        AnswerKeepsInvariant(m, t, Classify(stage.job, stage.view));
      } else {
        WatchingKeepsInvariant(m, t, ViewOf(m.server.slots[stage.job]));
      }
    }
  }

  lemma GiveUpKeepsInvariant(m: System, t: TaskId)
    requires SystemInv(m)
    ensures SystemInv(Next(m, GiveUpWaiting(t)))
  {
    hide ServerInv, RunningIsGuarded, Accounted, AllPursued, OneCallPerJob, ReportHolds;
    if && t in m.cancellers && !m.cancellers[t].stage.Between?
       && (m.cancellers[t].stage.Watching? ==> !Terminal(m.cancellers[t].stage.view.status)) {
      AnswerKeepsInvariant(m, t, Unconfirmed(m.cancellers[t].stage.job));
    }
  }

  lemma MoveKeepsInvariant(m: System, move: Move)
    requires SystemInv(m)
    ensures SystemInv(Next(m, move))
  {
    hide SystemInv, Apply;
    match move
    case Background(step) => BackgroundKeepsInvariant(m, step);
    case Accept(e, j, need, at) => AcceptKeepsInvariant(m, e, j, need, at);
    case Acknowledge(e) => AcknowledgeKeepsInvariant(m, e);
    case CancelAll(t, order) => CancelAllKeepsInvariant(m, t, order);
    case CallCancel(t, c) => CallCancelKeepsInvariant(m, t, c);
    case CallFails(t) => CallFailsKeepsInvariant(m, t);
    case Complete(c) => CompleteKeepsInvariant(m, c);
    case Receive(t) => ReceiveKeepsInvariant(m, t);
    case Watch(t) => LookKeepsInvariant(m, t);
    case GiveUpWaiting(t) => GiveUpKeepsInvariant(m, t);
    case Poll(_) | Handle(_, _, _) | PollFails(_, _) | DropCaller(_, _, _) | Fetch(_) => ExecMoveKeepsInvariant(m, move);
  }

  lemma BackgroundKeepsInvariant(m: System, step: JobServer.Step)
    requires SystemInv(m)
    ensures SystemInv(m.(server := Apply(m.server, step)))
  {
    hide ServerInv, Truthful, RunningIsGuarded, Accounted, AllPursued, OneCallPerJob, Apply;
    StepExtends(m.server, step);
    ServerAdvances(m, Apply(m.server, step));
  }

  lemma {:induction false} PlayKeepsInvariant(m: System, moves: seq<Move>)
    requires SystemInv(m)
    ensures SystemInv(Play(m, moves))
    decreases |moves|
  {
    hide SystemInv, Next;
    if moves != [] {
      MoveKeepsInvariant(m, moves[0]);
      PlayKeepsInvariant(Next(m, moves[0]), moves[1..]);
    }
  }

  // ---- What holds in every run ------------------------------------------

  /**
   In every interleaving: `running` is exactly the jobs with a live in-flight guard, and
   every acknowledged job is in exactly one of four places: its guard lives; its guard
   saw it end, and it ended; its guard is gone, a cancellation was spawned, and
   that cancellation still has it in hand or has answered for it; or its guard was dropped
   outside any runtime.
   */
  lemma EveryCommandIsAccountedFor(capacity: Resources, moves: seq<Move>)
    requires Fits(capacity, WORD)
    ensures var m := Play(Start(capacity), moves);
            && (forall j :: j in m.running <==> HasGuard(m.execs, j))
            && m.acknowledged == m.running + m.settled + m.spawned.Keys + m.outside
            && m.running !! m.settled !! m.spawned.Keys !! m.outside
            && (forall j | j in m.settled :: j in m.server.slots && Terminal(m.server.slots[j].job.status))
            && (forall j | j in m.spawned :: Pursued(m, j))
  {
    hide Play, ServerInv;
    StartHoldsInvariant(capacity);
    PlayKeepsInvariant(Start(capacity), moves);
  }

  lemma MoveKeepsHistory(m: System, move: Move)
    ensures m.answers <= Next(m, move).answers && m.reports <= Next(m, move).reports
  {
    hide Apply, Enumerates;
  }

  lemma {:induction false} HistoryGrows(m: System, moves: seq<Move>)
    ensures m.answers <= Play(m, moves).answers && m.reports <= Play(m, moves).reports
    decreases |moves|
  {
    hide Next;
    if moves != [] {
      MoveKeepsHistory(m, moves[0]);
      HistoryGrows(Next(m, moves[0]), moves[1..]);
    }
  }

  /**
   What `cancel` answered and what `exec` reported is true when it is said and in every
   continuation: a command reported not started is never executed later, one
   reported interrupted was executed and is recorded cancelled, and one reported ended
   has that status for good.
   */
  lemma ReportsAreTrueForGood(capacity: Resources, moves: seq<Move>, later: seq<Move>, answer: Answer, report: Report)
    requires Fits(capacity, WORD)
    ensures var now := Play(Start(capacity), moves);
            var then' := Play(now, later);
            && (answer in now.answers ==> AnswerHolds(now.server, answer.says) && AnswerHolds(then'.server, answer.says))
            && (report in now.reports ==> ReportHolds(now.server, report) && ReportHolds(then'.server, report))
  {
    hide Play, ServerInv, AnswerHolds, ReportHolds;
    StartHoldsInvariant(capacity);
    PlayKeepsInvariant(Start(capacity), moves);
    var now := Play(Start(capacity), moves);
    PlayKeepsInvariant(now, later);
    HistoryGrows(now, later);
  }

  /** The answer that says the same about a job as the report. */
  function AnswerMatching(report: Report): CommandCancellation {
    match report
    case Ran(j, status) => AlreadyEnded(j, status)
    case CancelledBeforeStart(j) => NotStarted(j)
    case CancelledWhileRunning(j) => Interrupted(j)
    case EndedAs(j, status) => AlreadyEnded(j, status)
  }

  /**
   Whatever is asked, however often and by whom, and whether `exec` ever reported or its caller was dropped: all
   confirmed answers about a job are one answer, also those given at different times.
   */
  lemma AnswersAgree(capacity: Resources, moves: seq<Move>, later: seq<Move>, a: Answer, b: Answer)
    requires Fits(capacity, WORD)
    requires var now := Play(Start(capacity), moves); a in now.answers && b in Play(now, later).answers
    requires a.says.job == b.says.job && !a.says.Unconfirmed? && !b.says.Unconfirmed?
    ensures a.says == b.says
  {
    hide Play, ServerInv, Truthful;
    var now := Play(Start(capacity), moves);
    AnswerHoldsLater(capacity, moves, later, a);
    var then' := Play(now, later);
    StartHoldsInvariant(capacity);
    PlayKeepsInvariant(Start(capacity), moves);
    PlayKeepsInvariant(now, later);
    assert AnswerHolds(then'.server, b.says) by { AnswerIsTrue(then', b); }
  }

  lemma AnswerIsTrue(m: System, a: Answer)
    requires Truthful(m) && a in m.answers
    ensures AnswerHolds(m.server, a.says)
  {
  }

  lemma AnswerHoldsLater(capacity: Resources, moves: seq<Move>, later: seq<Move>, a: Answer)
    requires Fits(capacity, WORD) && a in Play(Start(capacity), moves).answers
    ensures AnswerHolds(Play(Play(Start(capacity), moves), later).server, a.says)
  {
    hide Play, AnswerHolds, ReportHolds;
    ReportsAreTrueForGood(capacity, moves, later, a, Ran(0, Failed));
  }

  /** And `exec` never contradicts them. */
  lemma AnswersMatchReports(capacity: Resources, moves: seq<Move>, a: Answer, report: Report)
    requires Fits(capacity, WORD)
    requires var m := Play(Start(capacity), moves); a in m.answers && report in m.reports
    requires a.says.job == report.job && !a.says.Unconfirmed?
    ensures a.says == AnswerMatching(report)
  {
    hide Play, ServerInv;
    ReportsAreTrueForGood(capacity, moves, [], a, report);
  }

  // ---- Everything asked is answered for ---------------------------------

  /** Task `t` still has the job ahead of it or in hand, or has answered for it. */
  ghost predicate AskedFor(m: System, t: TaskId, j: JobId) {
    t in m.cancellers && (InHand(m.cancellers[t], j) || HasAnswered(m.answers, t, j))
  }

  lemma QueueMovesOn(c: Canceller, j: JobId)
    requires c.stage.Between? && c.queue != [] && InHand(c, j)
    ensures j == c.queue[0] || j in c.queue[1..]
  {
    assert c.queue == [c.queue[0]] + c.queue[1..];
  }

  lemma AnswerIsGiven(answers: set<Answer>, t: TaskId, says: CommandCancellation)
    ensures HasAnswered(answers + {Answer(t, says)}, t, says.job)
  {
    assert Answer(t, says) in answers + {Answer(t, says)};
  }

  /** A move of the task itself. */
  lemma OwnMoveKeepsAsked(m: System, move: Move, t: TaskId, j: JobId)
    requires AskedFor(m, t, j)
    requires move == CallFails(t) || move == Receive(t) || move == Watch(t) || move == GiveUpWaiting(t) || (move.CallCancel? && move.task == t)
    ensures AskedFor(Next(m, move), t, j)
  {
    hide Apply, HasAnswered;
    var c := m.cancellers[t];
    AnsweredStays(m.answers, Next(m, move).answers, t, j);
    if c.stage.Between? {
      if c.queue != [] {
        if InHand(c, j) { QueueMovesOn(c, j); }
        AnswerIsGiven(m.answers, t, Unconfirmed(c.queue[0]));
      }
    } else {
      AnswerIsGiven(m.answers, t, Unconfirmed(c.stage.job));
      if c.stage.Watching? { AnswerIsGiven(m.answers, t, Classify(c.stage.job, c.stage.view)); }
    }
  }

  /** A move of anyone else leaves the task and its answers alone. */
  lemma OtherMoveKeepsTask(m: System, move: Move, t: TaskId)
    requires t in m.cancellers
    requires move.CallCancel? || move.CallFails? || move.Receive? || move.Watch? || move.GiveUpWaiting? ==> move.task != t
    ensures var m' := Next(m, move); t in m'.cancellers && m'.cancellers[t] == m.cancellers[t] && m.answers <= m'.answers
  {
    hide Apply, Enumerates, Classify, ReportOf, ViewOf;
  }

  lemma {:induction false} AskedForGood(m: System, moves: seq<Move>, t: TaskId, j: JobId)
    requires AskedFor(m, t, j)
    ensures AskedFor(Play(m, moves), t, j)
    decreases |moves|
  {
    hide Next, AskedFor;
    if moves != [] {
      AskedStays(m, moves[0], t, j);
      AskedForGood(Next(m, moves[0]), moves[1..], t, j);
    }
  }

  lemma AskedStays(m: System, move: Move, t: TaskId, j: JobId)
    requires AskedFor(m, t, j)
    ensures AskedFor(Next(m, move), t, j)
  {
    hide Next, InHand, HasAnswered;
    if move == CallFails(t) || move == Receive(t) || move == Watch(t) || move == GiveUpWaiting(t) || (move.CallCancel? && move.task == t) {
      OwnMoveKeepsAsked(m, move, t, j);
    } else {
      OtherMoveKeepsTask(m, move, t);
      AnsweredStays(m.answers, Next(m, move).answers, t, j);
    }
  }

  /**
   `cancel` asks about every command that runs: in every continuation its task has each of them ahead, in hand, or
   answered for. Once it is done, it has answered for all.
   */
  lemma CancelAsksAboutAll(m: System, t: TaskId, order: seq<JobId>, later: seq<Move>, j: JobId)
    requires t !in m.cancellers && Enumerates(order, m.running) && j in m.running
    ensures var then' := Play(Next(m, CancelAll(t, order)), later);
            && AskedFor(then', t, j)
            && (then'.cancellers[t].queue == [] && then'.cancellers[t].stage.Between? ==> HasAnswered(then'.answers, t, j))
  {
    hide Play, HasAnswered;
    assert j in order;
    AskedForGood(Next(m, CancelAll(t, order)), later, t, j);
  }

  /** The moves of a task that cancels the first job of its queue and sees it ended. */
  ghost function CancelFirst(t: TaskId, c: CallId): seq<Move> {
    [CallCancel(t, c)] + ([Complete(c)] + ([Receive(t)] + ([Watch(t)] + [])))
  }

  /**
   A cancellation that leaves its job ended can be answered with just that. In particular a command that is not yet
   past admission is answered as not started.
   */
  lemma CancellationIsAnswered(m: System, t: TaskId, c: CallId)
    requires t in m.cancellers && m.cancellers[t].stage.Between? && m.cancellers[t].queue != []
    requires c !in m.server.calls && c !in m.replies && m.cancellers[t].queue[0] in m.server.slots
    ensures var j := m.cancellers[t].queue[0];
            var slot := Act(m.server.slots[j], Cancel(m.server.slots[j].control.Some?));
            var after := Play(m, CancelFirst(t, c));
            && (Terminal(slot.job.status) ==> Answer(t, Classify(j, ViewOf(slot))) in after.answers)
            && (NotYetExecuting(m.server.slots[j].job.status) ==> Answer(t, NotStarted(j)) in after.answers)
  {
    hide Play, Act, Next, Terminal, NotYetExecuting;
    var j := m.cancellers[t].queue[0];
    var captured := m.server.slots[j].control.Some?;
    var called := Next(m, CallCancel(t, c));
    var completed := Next(called, Complete(c));
    var received := Next(completed, Receive(t));
    PlayFirst(m, CallCancel(t, c), [Complete(c)] + ([Receive(t)] + ([Watch(t)] + [])));
    PlayFirst(called, Complete(c), [Receive(t)] + ([Watch(t)] + []));
    PlayFirst(completed, Receive(t), [Watch(t)] + []);
    PlayFirst(received, Watch(t), []);
    PlayNothing(Next(received, Watch(t)));
    AfterCall(m, t, c);
    AfterComplete(called, j, t, c, captured);
    AfterReply(completed, j, t, c);
    if NotYetExecuting(m.server.slots[j].job.status) {
      CancelEndsUnstarted(m.server.slots[j], captured);
    }
  }

  lemma AfterCall(m: System, t: TaskId, c: CallId)
    requires t in m.cancellers && m.cancellers[t].stage.Between? && m.cancellers[t].queue != []
    requires c !in m.server.calls && c !in m.replies && m.cancellers[t].queue[0] in m.server.slots
    ensures var j := m.cancellers[t].queue[0];
            var after := Next(m, CallCancel(t, c));
            && after.server.slots == m.server.slots && t in after.cancellers && after.cancellers[t].stage == Calling(j, c)
            && c in after.server.calls && after.server.calls[c] == Call(j, m.server.slots[j].control.Some?)
  {
  }

  lemma AfterComplete(m: System, j: JobId, t: TaskId, c: CallId, captured: bool)
    requires c in m.server.calls && m.server.calls[c] == Call(j, captured) && j in m.server.slots
    ensures var after := Next(m, Complete(c));
            && after.cancellers == m.cancellers && j in after.server.slots
            && after.server.slots[j] == Act(m.server.slots[j], Cancel(captured))
            && c in after.replies && after.replies[c] == Reply(j, ViewOf(after.server.slots[j]))
  {
    hide Act;
  }

  lemma AfterReply(m: System, j: JobId, t: TaskId, c: CallId)
    requires t in m.cancellers && m.cancellers[t].stage == Calling(j, c) && j in m.server.slots
    requires c in m.replies && m.replies[c].job == j
    ensures var after := Next(Next(m, Receive(t)), Watch(t));
            Terminal(m.replies[c].view.status) ==> Answer(t, Classify(j, m.replies[c].view)) in after.answers
  {
    hide Classify;
  }

  lemma CancelEndsUnstarted(slot: Slot, captured: bool)
    requires NotYetExecuting(slot.job.status)
    ensures var after := Act(slot, Cancel(captured));
            Terminal(after.job.status) && after.job.status.Cancelled? && after.job.phase == Some(BeforeExecution)
  {
  }

  /** A task that watches a job that has ended answers with how it ended, at its second look at the latest. */
  lemma WatchedEndIsAnswered(m: System, t: TaskId)
    requires SystemInv(m) && t in m.cancellers && m.cancellers[t].stage.Watching?
    requires m.cancellers[t].stage.job in m.server.slots && Terminal(m.server.slots[m.cancellers[t].stage.job].job.status)
    ensures var j := m.cancellers[t].stage.job;
            Answer(t, Classify(j, ViewOf(m.server.slots[j]))) in Play(m, [Watch(t)] + ([Watch(t)] + [])).answers
  {
    hide Play, Classify, Next, SystemInv;
    var looked := Next(m, Watch(t));
    PlayFirst(m, Watch(t), [Watch(t)] + []);
    PlayFirst(looked, Watch(t), []);
    PlayNothing(Next(looked, Watch(t)));
    assert Current(m.server, m.cancellers[t].stage.job, m.cancellers[t].stage.view) by { WatchedIsCurrent(m, t); }
    LookTwice(m, t);
  }

  lemma WatchedIsCurrent(m: System, t: TaskId)
    requires SystemInv(m) && t in m.cancellers && m.cancellers[t].stage.Watching?
    ensures Current(m.server, m.cancellers[t].stage.job, m.cancellers[t].stage.view)
  {
    hide ServerInv, OneCallPerJob, RunningIsGuarded, AllPursued, Accounted;
  }

  lemma LookTwice(m: System, t: TaskId)
    requires t in m.cancellers && m.cancellers[t].stage.Watching?
    requires Current(m.server, m.cancellers[t].stage.job, m.cancellers[t].stage.view)
    requires Terminal(m.server.slots[m.cancellers[t].stage.job].job.status)
    ensures var j := m.cancellers[t].stage.job;
            Answer(t, Classify(j, ViewOf(m.server.slots[j]))) in Next(Next(m, Watch(t)), Watch(t)).answers
  {
    hide Classify;
  }

  /** A call of `exec` whose job has ended reports it and gives up its guard, at its next look. */
  lemma ExecReportsTheEnd(m: System, e: ExecId, late: bool, t: TaskId)
    requires e in m.execs && m.execs[e].Waiting? && m.execs[e].job in m.server.slots && t !in m.cancellers
    requires Terminal(m.server.slots[m.execs[e].job].job.status)
    ensures var j := m.execs[e].job;
            var after := Play(m, [Poll(e)] + ([Handle(e, late, t)] + []));
            && ReportOf(j, ViewOf(m.server.slots[j])) in after.reports && j in after.settled && j !in after.running
            && e in after.execs && !Guarded(after.execs[e]) && after.cancellers == m.cancellers
            && e in Next(after, Fetch(e)).execs && Next(after, Fetch(e)).execs[e].Over?
  {
    hide Play, ReportOf, Next;
    var polled := Next(m, Poll(e));
    PlayFirst(m, Poll(e), [Handle(e, late, t)] + []);
    PlayFirst(polled, Handle(e, late, t), []);
    PlayNothing(Next(polled, Handle(e, late, t)));
    PolledNow(m, e);
    HandledEnd(polled, e, late, t);
    FetchedIsOver(Next(polled, Handle(e, late, t)), e);
  }

  lemma PolledNow(m: System, e: ExecId)
    requires e in m.execs && m.execs[e].Waiting? && m.execs[e].job in m.server.slots
    ensures Next(m, Poll(e)) == m.(execs := m.execs[e := Polled(m.execs[e].job, ViewOf(m.server.slots[m.execs[e].job]))])
  {
  }

  lemma HandledEnd(m: System, e: ExecId, late: bool, t: TaskId)
    requires e in m.execs && m.execs[e].Polled? && t !in m.cancellers && Terminal(m.execs[e].view.status)
    ensures var after := Next(m, Handle(e, late, t));
            && ReportOf(m.execs[e].job, m.execs[e].view) in after.reports
            && m.execs[e].job in after.settled && m.execs[e].job !in after.running
            && e in after.execs && (after.execs[e].Fetching? || after.execs[e].Over?) && after.cancellers == m.cancellers
  {
    hide ReportOf;
  }

  lemma FetchedIsOver(m: System, e: ExecId)
    requires e in m.execs && (m.execs[e].Fetching? || m.execs[e].Over?)
    ensures e in Next(m, Fetch(e)).execs && Next(m, Fetch(e)).execs[e].Over?
  {
  }

  /** No call waits for the job, and no caller has been told of it. */
  ghost predicate Unheard(m: System, j: JobId) {
    j in m.server.slots && j !in m.acknowledged && forall e | e in m.execs && !m.execs[e].Over? :: m.execs[e].job != j
  }

  lemma UnheardStays(m: System, move: Move, j: JobId)
    requires SystemInv(m) && Unheard(m, j)
    ensures Unheard(Next(m, move), j)
  {
    hide ServerInv, RunningIsGuarded, AllPursued, Accounted, Act, Truthful, OneCallPerJob, Classify, ReportOf, Enumerates, VerdictFor;
    MoveKeepsJobs(m, move, j);
  }

  lemma MoveKeepsJobs(m: System, move: Move, j: JobId)
    requires j in m.server.slots
    ensures j in Next(m, move).server.slots
  {
    hide Act, Classify, ReportOf, Enumerates, VerdictFor;
  }

  lemma {:induction false} UnheardForGood(m: System, moves: seq<Move>, j: JobId)
    requires SystemInv(m) && Unheard(m, j)
    ensures Unheard(Play(m, moves), j) && SystemInv(Play(m, moves))
    decreases |moves|
  {
    hide SystemInv, Unheard, Next;
    if moves != [] {
      UnheardStays(m, moves[0], j);
      MoveKeepsInvariant(m, moves[0]);
      UnheardForGood(Next(m, moves[0]), moves[1..], j);
    }
  }

  /**
   A caller that goes away after its command was submitted and before that was acknowledged leaves it to itself: in every
   continuation the command is not among those `cancel` asks about, and no task was ever spawned to cancel it.
   */
  lemma DropBeforeAcknowledgement(m: System, e: ExecId, inRuntime: bool, t: TaskId, later: seq<Move>)
    requires SystemInv(m) && e in m.execs && m.execs[e].Submitted? && t !in m.cancellers
    ensures var j := m.execs[e].job;
            var after := Play(Next(m, DropCaller(e, inRuntime, t)), later);
            && j in after.server.slots && j !in after.running && j !in after.spawned && j !in after.outside
            && Next(m, DropCaller(e, inRuntime, t)).server == m.server
  {
    hide Play, ServerInv, RunningIsGuarded, AllPursued;
    MoveKeepsInvariant(m, DropCaller(e, inRuntime, t));
    UnheardForGood(Next(m, DropCaller(e, inRuntime, t)), later, m.execs[e].job);
  }

  /** One that is late, cannot ask, or whose caller is gone hands its job to a task that cancels it. */
  lemma ExecHandsOver(m: System, e: ExecId, t: TaskId, move: Move, later: seq<Move>)
    requires e in m.execs && Guarded(m.execs[e]) && t !in m.cancellers
    requires || move == DropCaller(e, true, t)
             || (move == PollFails(e, t) && m.execs[e].Waiting?)
             || (move == Handle(e, true, t) && m.execs[e].Polled? && !Terminal(m.execs[e].view.status))
    ensures var j := m.execs[e].job;
            var after := Next(m, move);
            && j !in after.running && j in after.spawned && after.spawned[j] == t && e in after.execs && after.execs[e].Over?
            && AskedFor(Play(after, later), t, j)
  {
    hide Play, HasAnswered;
    var j := m.execs[e].job;
    assert j in [j];
    AskedForGood(Next(m, move), later, t, j);
  }

  // ---- When a cancellation keeps its promise ----------------------------

  lemma MoveIsSteps(m: System, move: Move) returns (steps: seq<JobServer.Step>)
    ensures Next(m, move).server == RunSteps(m.server, steps)
  {
    hide Apply, Enumerates;
    steps := [];
    match move
    case Background(step) => steps := [step];
    case Accept(e, j, need, at) => if e !in m.execs && j !in m.server.slots { steps := [Submit(j, need, at)]; }
    case CallCancel(t, c) =>
      if && t in m.cancellers && m.cancellers[t].stage.Between? && m.cancellers[t].queue != []
         && c !in m.server.calls && c !in m.replies {
        steps := [BeginCancel(c, m.cancellers[t].queue[0])];
      }
    case Complete(c) =>
      if c in m.server.calls && m.server.calls[c].job in m.server.slots { steps := [FinishCancel(c)]; }
    case _ =>
  }

  /** As far as the server is concerned, every interleaving is one of its runs. */
  lemma {:induction false} PlayIsSteps(m: System, moves: seq<Move>) returns (steps: seq<JobServer.Step>)
    ensures Play(m, moves).server == RunSteps(m.server, steps)
    decreases |moves|
  {
    hide Next, Apply;
    if moves == [] {
      steps := [];
    } else {
      var first := MoveIsSteps(m, moves[0]);
      var rest := PlayIsSteps(Next(m, moves[0]), moves[1..]);
      RunAppends(m.server, first, rest);
      steps := first + rest;
    }
  }

  /**
   When a cancellation that reached its locked half keeps the promise that the command is not left running: in every
   continuation of the interleaving, with any clients and restarts, the command never executes without having been
   asked to stop, exactly when its control was found before the lock or its task was not then about to execute.
   */
  lemma CancellationStopsExactlyWhen(m: System, c: CallId)
    requires SystemInv(m) && c in m.server.calls
    ensures var j := m.server.calls[c].job;
            && j in m.server.slots
            && ((forall later :: !ExecutesUnasked(Play(Next(m, Complete(c)), later).server, j))
                <==> m.server.calls[c].captured || !AboutToExecute(m.server.slots[j]))
  {
    hide Play, RunSteps, AboutToExecute, Truthful, OneCallPerJob, RunningIsGuarded, AllPursued, Accounted, Total, SlotInv, Fits;
    var j := m.server.calls[c].job;
    var completed := Next(m, Complete(c));
    var after := Apply(m.server, FinishCancel(c));
    assert completed.server == after;
    CancelMissesExactlyWhen(m.server, c);
    hide ServerInv, Apply, Next, ExecutesUnasked;
    if m.server.calls[c].captured || !AboutToExecute(m.server.slots[j]) {
      forall later ensures !ExecutesUnasked(Play(completed, later).server, j) {
        var steps := PlayIsSteps(completed, later);
      }
    } else {
      var steps :| ExecutesUnasked(RunSteps(after, steps), j);
      PlayBackground(completed, steps, []);
      PlayNothing(completed.(server := RunSteps(completed.server, steps)));
      assert ExecutesUnasked(Play(completed, InBackground(steps) + []).server, j);
    }
  }

  // ---- The promise that does not hold -----------------------------------

  ghost function InBackground(steps: seq<JobServer.Step>): seq<Move> {
    seq(|steps|, i requires 0 <= i < |steps| => Background(steps[i]))
  }

  lemma PlayFirst(m: System, move: Move, rest: seq<Move>)
    ensures Play(m, [move] + rest) == Play(Next(m, move), rest)
  {
    assert ([move] + rest)[1..] == rest;
  }

  lemma {:induction false} PlayBackground(m: System, steps: seq<JobServer.Step>, rest: seq<Move>)
    ensures Play(m, InBackground(steps) + rest) == Play(m.(server := RunSteps(m.server, steps)), rest)
    decreases |steps|
  {
    if steps == [] {
      assert InBackground(steps) + rest == rest;
    } else {
      var tail := InBackground(steps[1..]) + rest;
      assert InBackground(steps) + rest == [Background(steps[0])] + tail;
      PlayFirst(m, Background(steps[0]), tail);
      PlayBackground(m.(server := Apply(m.server, steps[0])), steps[1..], rest);
    }
  }

  /** The spawned cancellation is over, and the command executes on unasked. */
  ghost predicate LeftRunning(m: System, j: JobId, t: TaskId, c: CallId) {
    && j in m.spawned && m.spawned[j] == t && Answer(t, Unconfirmed(j)) in m.answers
    && t in m.cancellers && m.cancellers[t] == Canceller([], Between) && c !in m.server.calls
    && j in m.server.slots && m.server.slots[j].runner.Executing? && m.server.slots[j].control == Some(false)
  }

  /** The caller stops waiting and its cancellation finds no control. */
  ghost function DropAndCall(e: ExecId, t: TaskId, c: CallId, rest: seq<Move>): seq<Move> {
    [DropCaller(e, true, t)] + ([CallCancel(t, c)] + rest)
  }

  /** The cancellation completes and its task waits in vain. */
  ghost function CompleteAndWait(t: TaskId, c: CallId): seq<Move> {
    [Complete(c)] + ([Receive(t)] + ([GiveUpWaiting(t)] + []))
  }

  lemma AfterDropAndCall(m: System, e: ExecId, t: TaskId, c: CallId, rest: seq<Move>)
    requires e in m.execs && Guarded(m.execs[e]) && t !in m.cancellers
    requires c !in m.server.calls && c !in m.replies
    ensures var j := m.execs[e].job;
            var called := Abandon(m, e, j, true, t).(server := Apply(m.server, BeginCancel(c, j)),
                                                     cancellers := m.cancellers[t := Canceller([], Calling(j, c))]);
            Play(m, DropAndCall(e, t, c, rest)) == Play(called, rest)
  {
    hide Play, Apply;
    var j := m.execs[e].job;
    var dropped := Next(m, DropCaller(e, true, t));
    PlayFirst(m, DropCaller(e, true, t), [CallCancel(t, c)] + rest);
    PlayFirst(dropped, CallCancel(t, c), rest);
    assert [j][1..] == [];
    assert dropped.cancellers[t := Canceller([], Calling(j, c))] == m.cancellers[t := Canceller([], Calling(j, c))];
  }

  lemma AfterCompleteAndWait(m: System, j: JobId, t: TaskId, c: CallId)
    requires t in m.cancellers && m.cancellers[t] == Canceller([], Calling(j, c))
    requires c in m.server.calls && m.server.calls[c] == Call(j, false) && j in m.server.slots && j in m.spawned && m.spawned[j] == t
    requires var slot := m.server.slots[j]; slot.job.status.Running? && slot.runner.Executing? && slot.control == Some(false)
    ensures LeftRunning(Play(m, CompleteAndWait(t, c)), j, t, c)
  {
    hide Play, Next;
    var completed := Next(m, Complete(c));
    var received := Next(completed, Receive(t));
    var over := Next(received, GiveUpWaiting(t));
    PlayFirst(m, Complete(c), [Receive(t)] + ([GiveUpWaiting(t)] + []));
    PlayFirst(completed, Receive(t), [GiveUpWaiting(t)] + []);
    PlayFirst(received, GiveUpWaiting(t), []);
    PlayNothing(over);
    LateCompletion(m, j, t, c);
    WaitInVain(completed, j, t, c);
  }

  lemma LateCompletion(m: System, j: JobId, t: TaskId, c: CallId)
    requires c in m.server.calls && m.server.calls[c] == Call(j, false) && j in m.server.slots
    requires var slot := m.server.slots[j]; slot.job.status.Running? && slot.runner.Executing? && slot.control == Some(false)
    ensures var after := Next(m, Complete(c));
            && after.cancellers == m.cancellers && after.spawned == m.spawned && c !in after.server.calls
            && c in after.replies && after.replies[c].job == j && after.replies[c].view.status.Running?
            && j in after.server.slots && after.server.slots[j].runner.Executing? && after.server.slots[j].control == Some(false)
  {
  }

  lemma WaitInVain(m: System, j: JobId, t: TaskId, c: CallId)
    requires t in m.cancellers && m.cancellers[t] == Canceller([], Calling(j, c))
    requires c in m.replies && m.replies[c].job == j && m.replies[c].view.status.Running?
    ensures var after := Next(Next(m, Receive(t)), GiveUpWaiting(t));
            && after.server == m.server && after.spawned == m.spawned && Answer(t, Unconfirmed(j)) in after.answers
            && t in after.cancellers && after.cancellers[t] == Canceller([], Between)
  {
  }

  lemma PlayNothing(m: System)
    ensures Play(m, []) == m
  {
  }

  /**
   "Never left running" fails: whenever the caller of a command stops waiting while the
   command's task is about to register its control, this schedule completes the spawned
   cancellation, and the command executes on with its cancellation flag unset and
   no call left that would set it. The task gets `Unconfirmed`; when a completed cancellation
   does stop the command is `CancellationStopsExactlyWhen`.
   */
  lemma DroppedCommandCanBeLeftRunning(m: System, e: ExecId, t: TaskId, c: CallId)
    requires SystemInv(m) && e in m.execs && Guarded(m.execs[e]) && t !in m.cancellers
    requires c !in m.server.calls && c !in m.replies
    requires var slot := m.server.slots[m.execs[e].job]; slot.runner.Registering? && slot.job.status.Admitted?
    ensures var j := m.execs[e].job;
            LeftRunning(Play(m, DropAndCall(e, t, c, InBackground(Tasks(j, TO_EXECUTION)) + CompleteAndWait(t, c))), j, t, c)
  {
    hide Play, RunSteps, DropAndCall, CompleteAndWait, InBackground, ActAll, LeftRunning;
    hide ServerInv, OneCallPerJob, RunningIsGuarded, AllPursued, Accounted;
    var j := m.execs[e].job;
    var begun := Apply(m.server, BeginCancel(c, j));
    var called := Abandon(m, e, j, true, t).(server := begun, cancellers := m.cancellers[t := Canceller([], Calling(j, c))]);
    AfterDropAndCall(m, e, t, c, InBackground(Tasks(j, TO_EXECUTION)) + CompleteAndWait(t, c));
    PlayBackground(called, Tasks(j, TO_EXECUTION), CompleteAndWait(t, c));
    RegisteredTaskExecutes(m.server.slots[j]);
    RegisteringHasNoControl(m, j);
    TasksAlone(begun, j);
    AfterCompleteAndWait(called.(server := RunSteps(begun, Tasks(j, TO_EXECUTION))), j, t, c);
  }

  /**
   A spawned cancellation whose request fails is lost altogether: the task answers `Unconfirmed` and is done, and the
   server can go on in every way it could have if nothing had been asked.
   */
  lemma FailedRequestIsAsIfNone(m: System, e: ExecId, t: TaskId, steps: seq<JobServer.Step>)
    requires e in m.execs && Guarded(m.execs[e]) && t !in m.cancellers
    ensures var j := m.execs[e].job;
            var after := Play(m, [DropCaller(e, true, t)] + ([CallFails(t)] + (InBackground(steps) + [])));
            && after.server == RunSteps(m.server, steps) && j in after.spawned && after.spawned[j] == t
            && Answer(t, Unconfirmed(j)) in after.answers && t in after.cancellers && after.cancellers[t] == Canceller([], Between)
  {
    hide Play, RunSteps, InBackground, Apply;
    var j := m.execs[e].job;
    var dropped := Next(m, DropCaller(e, true, t));
    var failed := Next(dropped, CallFails(t));
    PlayFirst(m, DropCaller(e, true, t), [CallFails(t)] + (InBackground(steps) + []));
    PlayFirst(dropped, CallFails(t), InBackground(steps) + []);
    PlayBackground(failed, steps, []);
    PlayNothing(failed.(server := RunSteps(failed.server, steps)));
    assert [j][0] == j && [j][1..] == [];
  }

  /** In particular, a command about to execute is left running. */
  lemma FailedRequestLeavesRunning(m: System, e: ExecId, t: TaskId) returns (moves: seq<Move>)
    requires SystemInv(m) && e in m.execs && Guarded(m.execs[e]) && t !in m.cancellers
    requires m.execs[e].job in m.server.slots && AboutToExecute(m.server.slots[m.execs[e].job])
    ensures var j, after := m.execs[e].job, Play(m, moves);
            && ExecutesUnasked(after.server, j) && after.server.slots[j].runner.Executing?
            && Answer(t, Unconfirmed(j)) in after.answers && t in after.cancellers && after.cancellers[t] == Canceller([], Between)
  {
    hide Play, RunSteps, InBackground, ServerInv, Truthful, OneCallPerJob, RunningIsGuarded, AllPursued, Accounted, AboutToExecute, Unasked;
    var steps := AboutToExecuteExecutes(m.server, m.execs[e].job);
    FailedRequestIsAsIfNone(m, e, t, steps);
    moves := [DropCaller(e, true, t)] + ([CallFails(t)] + (InBackground(steps) + []));
  }

  /** A submission acknowledged, and its task taken to the point where it registers its control. */
  ghost function ToTheRace(e: ExecId, j: JobId, need: Resources, at: nat, rest: seq<Move>): seq<Move> {
    [Accept(e, j, need, at)] + ([Acknowledge(e)] + (InBackground([Task(j, TryReserve(Wait))] + (Tasks(j, TO_REGISTERING) + [])) + rest))
  }

  lemma AfterTheRace(capacity: Resources, e: ExecId, j: JobId, need: Resources, at: nat, rest: seq<Move>) returns (m: System)
    requires Fits(capacity, WORD) && Fits(need, capacity)
    ensures Play(Start(capacity), ToTheRace(e, j, need, at, rest)) == Play(m, rest)
    ensures SystemInv(m) && e in m.execs && m.execs[e] == Waiting(j) && m.cancellers == map[] && m.replies == map[]
    ensures j in m.server.slots && m.server.slots[j].runner.Registering? && m.server.slots[j].job.status.Admitted?
    ensures m.server.calls == map[]
  {
    hide Play, RunSteps, SystemInv, InBackground, Tasks;
    var steps := [Task(j, TryReserve(Wait))] + (Tasks(j, TO_REGISTERING) + []);
    var start := Start(capacity);
    var accepted := Next(start, Accept(e, j, need, at));
    var acknowledged := Next(accepted, Acknowledge(e));
    m := acknowledged.(server := RunSteps(acknowledged.server, steps));
    PlayFirst(start, Accept(e, j, need, at), [Acknowledge(e)] + (InBackground(steps) + rest));
    PlayFirst(accepted, Acknowledge(e), InBackground(steps) + rest);
    PlayBackground(acknowledged, steps, rest);
    RunFirst(start.server, Submit(j, need, at), steps);
    RacePointIsReached(capacity, j, need, at);
    StartHoldsInvariant(capacity);
    MoveKeepsInvariant(start, Accept(e, j, need, at));
    MoveKeepsInvariant(accepted, Acknowledge(e));
    PlayBackground(acknowledged, steps, []);
    PlayNothing(m);
    PlayKeepsInvariant(acknowledged, InBackground(steps) + []);
  }

  /**
   It happens from the very start: on every node, to every command that fits, an interleaving ends with the caller gone,
   its cancellation completed and given up on, and the command executing.
   */
  lemma LeftRunningIsReached(capacity: Resources, e: ExecId, j: JobId, need: Resources, at: nat, t: TaskId, c: CallId)
    requires Fits(capacity, WORD) && Fits(need, capacity)
    ensures LeftRunning(
              Play(Start(capacity),
                   ToTheRace(e, j, need, at, DropAndCall(e, t, c, InBackground(Tasks(j, TO_EXECUTION)) + CompleteAndWait(t, c)))),
              j, t, c)
  {
    hide Play, ToTheRace, DropAndCall, CompleteAndWait, InBackground, LeftRunning, SystemInv, Tasks;
    var rest := DropAndCall(e, t, c, InBackground(Tasks(j, TO_EXECUTION)) + CompleteAndWait(t, c));
    var m := AfterTheRace(capacity, e, j, need, at, rest);
    DroppedCommandCanBeLeftRunning(m, e, t, c);
  }

  lemma RegisteringHasNoControl(m: System, j: JobId)
    requires ServerInv(m.server) && j in m.server.slots && m.server.slots[j].runner.Registering?
    ensures m.server.slots[j].control.None?
  {
    assert SlotInv(m.server.slots[j]);
  }

  lemma TasksAlone(s: Server, j: JobId)
    requires j in s.slots
    ensures RunSteps(s, Tasks(j, TO_EXECUTION)) == s.(slots := s.slots[j := ActAll(s.slots[j], TO_EXECUTION)])
  {
    hide ActAll;
    assert Tasks(j, TO_EXECUTION) + [] == Tasks(j, TO_EXECUTION);
    RunTasks(s, j, TO_EXECUTION, []);
    RunNothing(s.(slots := s.slots[j := ActAll(s.slots[j], TO_EXECUTION)]));
  }

  // ---- The polling loops ------------------------------------------------

  /** Reply `i` ends the wait: it says the job ended, and every one before it arrived and said it had not. */
  ghost predicate EndsAt(replies: seq<Option<View>>, i: nat) {
    && i < |replies| && replies[i].Some? && Terminal(replies[i].value.status)
    && forall k | 0 <= k < i :: replies[k].Some? && !Terminal(replies[k].value.status)
  }

  /**
   `cancel_job`: the reply to the cancellation and then status replies, `None` for a request
   that failed; the deadline passes after the last of them.
   */
  method CancelJob(j: JobId, first: Option<View>, polls: seq<Option<View>>) returns (answer: CommandCancellation)
    ensures answer.job == j
    ensures answer == Unconfirmed(j) <==> forall i: nat :: !EndsAt([first] + polls, i)
    ensures forall i: nat :: EndsAt([first] + polls, i) ==> answer == Classify(j, ([first] + polls)[i].value)
  {
    ghost var replies := [first] + polls;
    assert replies[0] == first;
    if first.None? {
      return Unconfirmed(j);
    }
    var view := first.value;
    var asked := 0;
    while !Terminal(view.status)
      invariant 0 <= asked <= |polls|
      invariant replies[asked] == Some(view)
      invariant forall k | 0 <= k < asked :: replies[k].Some? && !Terminal(replies[k].value.status)
      decreases |polls| - asked
    {
      if asked == |polls| {
        return Unconfirmed(j);
      }
      match polls[asked] {
        case None =>
          assert replies[asked + 1].None?;
          return Unconfirmed(j);
        case Some(next) =>
          view := next;
          asked := asked + 1;
      }
    }
    assert EndsAt(replies, asked);
    answer := Classify(j, view);
  }

  /**
   However the manager moves between the replies, an answer built from them is true of the
   manager at the end.
   */
  lemma PolledAnswerHolds(j: JobId, states: seq<Server>, replies: seq<Option<View>>, i: nat)
    requires |states| == |replies| > 0 && EndsAt(replies, i)
    requires forall k | 0 <= k < |states| :: ServerInv(states[k]) && j in states[k].slots
    requires forall k, l | 0 <= k <= l < |states| :: Extends(states[l], states[k])
    requires forall k | 0 <= k < |states| && replies[k].Some? :: replies[k].value == ViewOf(states[k].slots[j])
    ensures AnswerHolds(states[|states| - 1], Classify(j, replies[i].value))
  {
    hide ServerInv, Extends, AnswerHolds, SlotInv;
    assert Current(states[i], j, replies[i].value);
    EndedViewHolds(states[i], j, replies[i].value);
    AnswerSurvives(states[i], states[|states| - 1], Classify(j, replies[i].value));
  }
}
