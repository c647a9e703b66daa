# Compute: verified models of its hard parts

Compute runs commands, services and applications on nodes that a command line drives. This project models the parts
of it where several participants, or several pieces of code, have to agree, and proves what they agree on:

- **Commands of an agent session** (`JobRecord`, `JobServer`, `AgentProtocol`, `AgentHost`). The job manager of a node
  is a state machine over its durable records, its tasks, its locks and its restarts. The client is a second state
  machine beside it: calls that wait for a command, the in-flight guard of each, and tasks that cancel. All steps
  interleave freely. Acquiring a session is a class with its counters.
- **Handing a node over to another build** (`HandOver`). The old process, the new controller and the restored one share
  one durable record, and any of them may die at any step.
- **Attaching to a command** (`AttachRelay`), **following a log** (`LogFollow`).
- **Distributions** (`Distribution`, `TreeDigest`, `ArtifactCache`). Building, verifying, hashing, archiving, caching.
- **Managed services** (`ManagedServices`), **the home of an application** (`ApplicationHome`).
- **Starting in the background** (`StartArguments`). The argument list `detach` writes, its normalisation and its parsing.
- **Process trees** (`ProcessTree`).

Where the code updates things step by step, a method or a class does the same and is proved against a function of its
inputs; the properties are then proved of that function, over every run. What the outside world does is an input:
replies of a server, what a child process does, timing, file system order, hashes.

Some promises of the code and its documentation do not hold. For each of these there is a concrete case, and the exact
condition under which the promise is kept:

- "Never left running" (crates/compute-agent/src/lib.rs:29-38): a cancellation looks for the command's control before
  it takes the lock, and misses a command that registers its control in between (`LeftRunningIsReached`,
  `CancellationStopsExactlyWhen`). One that a restart catches before its locked half is lost altogether (`CallEndsExactlyWhen`,
  `RestartLosesACancellation`), and so is one whose request fails (`FailedRequestIsAsIfNone`). A command whose caller goes
  away before its submission is acknowledged is pursued by nobody (`DropBeforeAcknowledgement`).
- A restart that finds a job in `preparing` leaves it without a task until the next restart
  (`RestartWhilePreparingWedges`, `WedgedOnlyByARestart`, `RestartedWhilePreparingNeverRuns`).
- A hand-over that is `completed` can still be rolled back (`CompletedIsFinalExactlyWhen`).
- Following a log loses new output once the log has more lines than the daemon sends and gets another, and prints it
  again after a poll that failed (`NewLineIsLostByTheDaemon`, `FailedPollPrintsTwice`, `EachPrintsTheNewExactlyWhen`).
- `compute start --policy FILE` is refused, and so is the background process of `compute start --detach --policy=FILE`
  (`PolicyFileIsRefused`, `AcceptedStartsAgainExactlyWhen`).
- A managed service can be reported as started with its process gone, when another process has its endpoint
  (`SuccessCanRecordADeadProcess`, `RunServesExactlyWhen`); a second run then starts another
  (`SecondRunStartsNothingExactlyWhen`).
- An application can get a second home when an error hides the first (`DoublesExactlyWhen`), or when deploys overlap
  (`OverlappingDeploysDouble`, `OverlapDoublesExactlyWhen`).
- Listing the descendants of a process that is its own descendant does not end (`ParentsOfEachOther`,
  `StopsExactlyWhen`).

`dafny verify dfyconfig.toml` checks everything.

## Model

| member | source | states |
|---|---|---|
| `JobRecord.ActKeepsInvariant` | crates/compute-provider/src/jobs.rs:566-761 | Every step on a job, cancellation and crash included, keeps record, reservation, stored admission, result and task position in agreement. |
| `JobRecord.EndedIsFrozen` | crates/compute-provider/src/jobs.rs:1336-1379 | No step changes the status, cancellation phase or executions of a job that ended. |
| `JobRecord.WedgedStays` | crates/compute-provider/src/jobs.rs:1644-1666 | A job left in `preparing` without a task is moved by nothing but a restart. |
| `JobRecord.DenialIsRejected` | crates/compute-provider/src/jobs.rs:629-669 | A denial is stored as one and ends the job as rejected, with its reservation given back and nothing executed. |
| `JobRecord.EndIsRecorded` | crates/compute-provider/src/jobs.rs:994-1068 | What an execution ended with is what is recorded, also after a crash between the two writes; refused evidence or a crash before any write makes it a failure, beside which a written result stays; an end as cancelled counts as the effect of a cancellation if one was requested. |
| `JobRecord.EffectStaysFitting` | crates/compute-provider/src/jobs.rs:1181-1238 | Every step keeps what the record says of a cancellation true: effective only if requested and cancelled, effective at once before execution, and an interrupt that was requested has reached the control of what is still to execute. |
| `JobRecord.StoredAdmissionSurvives` | crates/compute-provider/src/jobs.rs:873-926 | An admission that was written before a crash decides after it, whatever the policy would then answer; a denial is asked again. |
| `JobRecord.SomeStepIsDue` | crates/compute-provider/src/jobs.rs:566-761 | A task that is not over and does not wait for capacity has a step to take. |
| `JobServer.ReservedNow` | crates/compute-provider/src/jobs.rs:933-956 | The reserved sum is the total over all jobs whatever order the directory lists, and fails exactly when that total overflows. |
| `JobServer.NextFitting` | crates/compute-provider/src/jobs.rs:958-992 | The result is the oldest waiting job that fits, in any listing order, and nothing exactly when none fits. |
| `JobServer.TryReserveNow` | crates/compute-provider/src/jobs.rs:763-871 | The decision reached over two listings of the directory is the one verdict the state determines, whatever their orders. |
| `JobServer.StepKeepsInvariant` | crates/compute-provider/src/jobs.rs:763-871 | No step of any job makes the reserved total exceed the capacity, and each keeps every job's invariant. |
| `JobServer.EveryRunIsSafe` | crates/compute-provider/src/jobs.rs:224-342 | In every run: the capacity is never exceeded, ended jobs hold nothing, no job executes twice or without a stored admission, and a job is recorded as cancelled before execution exactly when it was cancelled and never executed. |
| `JobServer.EndedForGood` | crates/compute-provider/src/jobs.rs:1336-1379 | A job that ended keeps status, phase and executions in every continuation, restarts included. |
| `JobServer.ExecutesOnlyIfAdmitted` | crates/compute-provider/src/jobs.rs:592-669 | In every run, a job for which the policy never answered that it is admitted stores no admission, is never prepared and never executes. |
| `JobServer.RecordedAsItEnded` | crates/compute-provider/src/jobs.rs:994-1068 | In every run, a job recorded as succeeded, timed out, or cancelled after executing was executed once, and that execution ended as just that. |
| `JobServer.FailedUnexecutedOnlySo` | crates/compute-provider/src/jobs.rs:670-692 | In every run, a job is recorded as failed without having been executed only if its log directory could not be made, or a restart fell between its entering `running` and its execution. |
| `JobServer.SubmissionIsKept` | crates/compute-provider/src/jobs.rs:344-564 | Over every run an accepted job keeps what it asked for and its place in the queue; its record claims an effect only of a requested cancellation, and an interrupt only where nothing is about to execute unasked. |
| `JobServer.DecisionIsCarriedOut` | crates/compute-provider/src/jobs.rs:763-871 | A waiting job is refused exactly when it exceeds the capacity, and given its reservation exactly when it fits beside what is reserved and every other waiting job that does came later, by time and then id; otherwise it waits on. |
| `JobServer.TaskComesToAnEnd` | crates/compute-provider/src/jobs.rs:566-761 | Whatever cancellations fall in between, a task takes at most ten steps from submission or restart to its end, not counting the times it is told to wait. |
| `JobServer.CancelMissesExactlyWhen` | crates/compute-provider/src/jobs.rs:1181-1238 | After the locked half of a cancellation, no continuation, restarts included, executes the command without having asked it to stop, exactly when its control was found before the lock or its task was not about to execute then; otherwise some continuation executes it unasked. |
| `JobServer.CancelCanMissARunningCommand` | crates/compute-provider/src/jobs.rs:1184-1217 | From every state where a task is about to register its control there is a schedule in which a completed cancellation leaves the command executing. |
| `JobServer.CallEndsExactlyWhen` | crates/compute-provider/src/jobs.rs:1181-1238 | Over any run, a cancellation stays under way with what it found exactly as long as neither its locked half runs nor a restart happens. |
| `JobServer.RestartLosesACancellation` | crates/compute-provider/src/jobs.rs:224-342 | From every state with an admitted job, a restart between the two halves of a cancellation can lead to the job executing unasked, its record never having been marked. |
| `JobServer.RacePointIsReached` | crates/compute-provider/src/jobs.rs:566-761 | Every first job that fits the node reaches such a state. |
| `JobServer.OnlyJobIsGranted` | crates/compute-provider/src/jobs.rs:763-871 | A job alone on a node it fits is granted its reservation. |
| `JobServer.RestartWhilePreparingWedges` | crates/compute-provider/src/jobs.rs:301-342 | A restart that finds a job in `preparing` ends with no task for it, though it never ended. |
| `JobServer.WedgedUntilRestart` | crates/compute-provider/src/jobs.rs:1644-1666 | Such a job stays as it is in every run without a restart. |
| `JobServer.OnlyWedgedJobsAreAbandoned` | crates/compute-provider/src/jobs.rs:566-761 | In every reachable state, a job without a task has ended unless it is one of those. |
| `JobServer.WedgedOnlyByARestart` | crates/compute-provider/src/jobs.rs:224-342 | In every run, a job is left without a task only if some restart of that run found it in `preparing`. |
| `JobServer.RestartedWhilePreparingNeverRuns` | crates/compute-provider/src/jobs.rs:301-342 | A job that a restart finds in `preparing` is not executed in any continuation; it stays so or is ended without having run. |
| `AgentProtocol.ClassifyHolds` | crates/compute-agent/src/lib.rs:519-558 | An answer or report made from a terminal record is true of what happened to the job. |
| `AgentProtocol.MoveKeepsInvariant` | crates/compute-agent/src/lib.rs:387-517 | Every move of client or server keeps all said and remembered facts true, one waiting call per job, and the four-way accounting of commands. |
| `AgentProtocol.EveryCommandIsAccountedFor` | crates/compute-agent/src/lib.rs:387-517 | In every interleaving `running` is exactly the jobs with a live guard, and each acknowledged job is in exactly one place: guarded, seen ended, abandoned with the very task the drop spawned still having it in hand or having answered for it, or dropped outside a runtime. |
| `AgentProtocol.ReportsAreTrueForGood` | crates/compute-agent/src/lib.rs:177-205 | Each answer of `cancel` and each report of `exec` is true when given and in every continuation: not started means never executed, interrupted means executed and recorded cancelled, ended means that status for good. |
| `AgentProtocol.AnswersAgree` | crates/compute-agent/src/lib.rs:511-558 | All confirmed answers about a job, whoever asked, however often and at whatever times, are one answer, also for commands whose caller was dropped. |
| `AgentProtocol.AnswersMatchReports` | crates/compute-agent/src/lib.rs:451-558 | A confirmed answer about a job is the one that matches what `exec` reported for it. |
| `AgentProtocol.CancelAsksAboutAll` | crates/compute-agent/src/lib.rs:511-517 | After `cancel`, in every continuation, each command that was running is still ahead of the task, in its hands, or answered for; once the task is done, all are answered for. |
| `AgentProtocol.CancellationIsAnswered` | crates/compute-agent/src/lib.rs:519-558 | A cancellation carried through that leaves its job ended is answered with how it ended; of a command not yet past admission, that it was not started. |
| `AgentProtocol.WatchedEndIsAnswered` | crates/compute-agent/src/lib.rs:519-558 | A task watching a job that has ended answers with how it ended at its second look at the latest. |
| `AgentProtocol.ExecReportsTheEnd` | crates/compute-agent/src/lib.rs:433-500 | A call whose job has ended reports that end at its next look, gives up its guard, and is over once it has fetched the result. |
| `AgentProtocol.ExecHandsOver` | crates/compute-agent/src/lib.rs:387-400 | A call that is late, cannot ask, or whose caller is gone hands its job to a task that, in every continuation, has it in hand or has answered for it. |
| `AgentProtocol.DropBeforeAcknowledgement` | crates/compute-agent/src/lib.rs:422-450 | A command whose caller goes away after it was submitted and before that was acknowledged is, in every continuation, neither among those `cancel` asks about nor pursued by any task. |
| `AgentProtocol.CancellationStopsExactlyWhen` | crates/compute-agent/src/lib.rs:29-38 | After a cancellation's locked half the command is never left executing unasked, in any continuation of the interleaving, exactly when its control was found before the lock or its task was not about to execute then. |
| `AgentProtocol.PlayIsSteps` | crates/compute-agent/src/lib.rs:422-558 | Every interleaving of clients is, for the server, one of its runs. |
| `AgentProtocol.DroppedCommandCanBeLeftRunning` | crates/compute-agent/src/lib.rs:29-38 | Whenever the caller is dropped while the command's task is about to register its control, a schedule ends with the cancellation over, the answer unconfirmed, and the command executing. |
| `AgentProtocol.LeftRunningIsReached` | crates/compute-agent/src/lib.rs:29-38 | From the start of every node, for every command that fits it, an interleaving ends so. |
| `AgentProtocol.FailedRequestIsAsIfNone` | crates/compute-agent/src/lib.rs:519-531 | If the request of a spawned cancellation fails, its task answers unconfirmed and is done, and every run of the server is still possible. |
| `AgentProtocol.FailedRequestLeavesRunning` | crates/compute-agent/src/lib.rs:519-531 | So a command about to execute is left executing unasked. |
| `AgentProtocol.CancelJob` | crates/compute-agent/src/lib.rs:519-558 | For every sequence of replies the answer is the classification of the first terminal one, and unconfirmed exactly when there is none. |
| `AgentProtocol.PolledAnswerHolds` | crates/compute-agent/src/lib.rs:519-558 | Whatever the server does between the replies, that answer is true of it at the end. |
| `AgentHost.WaitOutcomeMeaning` | crates/compute-agent/src/lib.rs:317-359 | Waiting for a session ends with the one poll that settles it, and unsettled exactly when no poll does. |
| `AgentHost.Host.Release` | crates/compute-agent/src/lib.rs:561-563 | A release is a destroy and keeps the counters in step with the sessions. |
| `AgentHost.Host.CreateSession` | crates/compute-agent/src/lib.rs:317-359 | A session that does not become ready is destroyed, unless it was seen to end; the counters account for it. |
| `AgentHost.Host.Acquire` | crates/compute-agent/src/lib.rs:263-315 | A session is handed out exactly when one was created, the first settling poll shows it usable, and the project, if any, loaded with exit code 0. It is then the created one. Otherwise it is recorded as seen ended exactly when the settling poll shows that, and destroyed in all other cases; every counter moves accordingly. |
| `HandOver.StepKeepsInvariant` | crates/compute-cli/src/environment_cmd.rs:303-370 | Every step of the three processes, deaths included, keeps writer, record and liveness in agreement. |
| `HandOver.NeverTwoControllers` | crates/compute-cli/src/environment_cmd.rs:304-351 | In every run at most one of the new and the restored controller is alive, and the previous build is launched only after the new one was reaped or never started. |
| `HandOver.RecordMovesAlongEdges` | crates/compute-environment/src/daemon/upgrades.rs:170-283 | Every step moves the record along one edge of its status graph and changes nothing else in it. |
| `HandOver.OnlyOneBuildResumes` | crates/compute-environment/src/daemon/upgrades.rs:170-283 | Of controllers that find the same record only those of one build change it, and none changes what one of them has just stored. |
| `HandOver.MissingNeverCompletes` | crates/compute-environment/src/daemon/upgrades.rs:199-208 | In every run in which the new build misses a workload whenever it looks, the record is never `completed` and the hand-over never returns that the new build serves. |
| `HandOver.MissingRefuses` | crates/compute-environment/src/daemon/upgrades.rs:199-208 | A new controller that misses a workload stores `refused`, and one that has them all stores `completed`. |
| `HandOver.RefusedForGood` | crates/compute-environment/src/daemon/upgrades.rs:199-208 | After a refusal no run completes, not even with the workload back. |
| `HandOver.RefusalIsNotKilled` | crates/compute-cli/src/environment_cmd.rs:304-342 | A controller whose refusal was seen is waited for in every continuation, and never killed. |
| `HandOver.RefusalIsRestored` | crates/compute-cli/src/environment_cmd.rs:304-370 | A run in which the new controller refuses ends with the previous build restored. |
| `HandOver.FailedLaunchIsRestored` | crates/compute-cli/src/environment_cmd.rs:304-370 | So does one in which the new build cannot be started. |
| `HandOver.HandOverCanSucceed` | crates/compute-cli/src/environment_cmd.rs:304-342 | With all workloads there, a run ends with the new controller serving under this very hand-over. |
| `HandOver.HandOverComesToAnEnd` | crates/compute-cli/src/environment_cmd.rs:304-370 | Whatever the controllers do, the old process takes at most twelve steps, and three more for each time it finds time left or waits for an exit. |
| `HandOver.FailsExactlyWhen` | crates/compute-cli/src/environment_cmd.rs:343-370 | It reports failure of both builds exactly when the rollback cannot be stored, or the previous build does not start, has exited, or is not restored in time. |
| `HandOver.OutcomeIsTrueForGood` | crates/compute-cli/src/environment_cmd.rs:306-369 | A successful return names the controller that stored the status, in every continuation: `completed` by the new one with the previous never launched, `rolled_back` by the restored one with the new one gone. |
| `HandOver.CompletedIsFinalExactlyWhen` | crates/compute-cli/src/environment_cmd.rs:306-351 | A `completed` record stays so in all continuations exactly when the old process has returned or is lost, and, as long as the record can be read, also when it is about to look; otherwise some run restores the previous build. |
| `HandOver.RevokedRollsBack` | crates/compute-cli/src/environment_cmd.rs:343-369 | From every other state with a `completed` record there is a run that ends rolled back. |
| `HandOver.CompletedCanBeRevoked` | crates/compute-cli/src/environment_cmd.rs:306-342 | Such a state is reached by a controller that completes between two looks. |
| `HandOver.FollowUpgrade` | crates/compute-cli/src/node_cmd.rs:399-440 | The follower succeeds exactly when the first final reply of its own hand-over says `completed`. |
| `HandOver.FollowerDecidesOnTheTruth` | crates/compute-cli/src/node_cmd.rs:411-432 | For replies read at later and later moments of any run of the hand-over, the reply a follower decides on was stored by the controller it names, for this hand-over. |
| `HandOver.FollowedSuccessIsTheNewControllers` | crates/compute-cli/src/node_cmd.rs:411-432 | A follower that succeeds had a reply from a moment when the new controller of its own hand-over had stored `completed`. |
| `AttachRelay.FindDetach` | crates/compute-cli/src/attach.rs:141 | The position found is that of the first detach byte, and none exactly when there is none. |
| `AttachRelay.Send` | crates/compute-cli/src/attach.rs:96-175 | For every chunking and every pattern of refused requests: the bytes sent are a prefix of the input before the first detach byte (of all input without a terminal); they are all of it unless a request with input was refused, which is then the last; a detach byte of a terminal ends the sending and nothing follows; one close, last, is sent exactly at the end of input; the size of a terminal goes first, and nothing is resized without one. Each change of a terminal's window, up to the event it stopped at, sends one resize, and nothing else does after the first. |
| `AttachRelay.ReadBoth` | crates/compute-cli/src/attach.rs:177-206 | Reading both streams in turn is reading each on its own, and the loop stops at the first moment both are done, and not before. |
| `AttachRelay.ReaderWritesTheLogOnce` | crates/compute-cli/src/attach.rs:177-206 | For every growth of the log and every limit per read, what was written is the log from the start to the current position, once and in order, and all of it when the reader is done. |
| `AttachRelay.ReaderGetsDone` | crates/compute-provider/src/jobs.rs:1257-1310 | Once the job has ended, as many reads as chunks that are left finish the stream. |
| `AttachRelay.ReattachingContinues` | crates/compute-cli/src/attach.rs:177-206 | Stopping and reading again from the position reached gives exactly what one uninterrupted reader would have. |
| `LogFollow.BoundaryMeansValidParts` | crates/compute-cli/src/application.rs:1251-1255 | In valid UTF-8 the one-byte boundary test holds exactly where both sides are valid text. |
| `LogFollow.ValidExactlyWhen` | crates/compute-cli/src/application.rs:1251-1255 | The text the boundary test is about is valid exactly when it is the UTF-8 encoding of some sequence of Unicode scalar values. |
| `LogFollow.Printer.PrintDelta` | crates/compute-cli/src/application.rs:1251-1265 | What is printed is the rest of the text from the offset, or all of it after a reset, and is always valid text. |
| `LogFollow.Follow` | crates/compute-cli/src/application.rs:791-809 | The polling loop prints the deltas of all snapshots in order. |
| `LogFollow.FollowPrintsTheLast` | crates/compute-cli/src/application.rs:791-809 | If each snapshot continues the one before, the offset never resets and the total printed is the last snapshot. |
| `LogFollow.TailHasItsLines` | crates/compute-environment/src/daemon/applications.rs:416-435 | What the daemon sends has the number of lines asked for, or all there are. |
| `LogFollow.FollowIsCompleteExactlyWhen` | crates/compute-environment/src/daemon/applications.rs:416-435 | With the daemon sending only the last lines, following prints the whole log from its first line, for every polling schedule of which no poll fails, exactly when the log has no more lines than that. |
| `LogFollow.FailingFollowIsCompleteExactlyWhen` | crates/compute-environment/src/daemon/computers.rs:2390-2420 | If polls may fail and bring nothing, only the empty log is printed right for every schedule. |
| `LogFollow.FailedPollPrintsTwice` | crates/compute-environment/src/daemon/computers.rs:4339-4393 | One failed poll between two good ones prints a log twice, however short it is. |
| `LogFollow.PollPrintsTheNewExactlyWhen` | crates/compute-cli/src/application.rs:1251-1265 | After a poll that was answered, the next prints exactly the output that is new since, exactly when the log has no more lines than the daemon sends or no new line, or the offset resets and the tail begins just where the log ended. |
| `LogFollow.PollAfterNothingPrintsTheNewExactlyWhen` | crates/compute-cli/src/application.rs:1251-1265 | After a poll that failed, exactly when the tail begins just where the log ended at the last answered one. |
| `LogFollow.EachPrintsTheNewExactlyWhen` | crates/compute-cli/src/application.rs:791-809 | Over any number of polls, answered or not, every answer prints exactly what is new since the last answer exactly when those conditions hold at each. |
| `LogFollow.FollowLosesNothing` | crates/compute-cli/src/application.rs:791-809 | Under these conditions following prints the first tail and then all new output, once, whichever polls fail. |
| `LogFollow.NewLinesCanBeLost` | crates/compute-environment/src/daemon/applications.rs:416-435 | If the new tail is as long as the old one, nothing of the new output is printed. |
| `LogFollow.NewLineIsLost` | crates/compute-environment/src/daemon/applications.rs:416-435 | Whatever number of lines the daemon sends, another line like the last that many is never printed. |
| `LogFollow.NewLineIsLostByTheDaemon` | crates/compute-environment/src/daemon/applications.rs:46 | Such a log for the thousand lines the daemon sends. |
| `Distribution.CheckRuntimes` | crates/compute-cli/src/distribution.rs:598-682 | All runtime checks pass exactly when every runtime of the lock fits. |
| `Distribution.VerifyRoot` | crates/compute-cli/src/distribution.rs:459-703 | Verification passes exactly when all files fit, the manifest's runtime names are the lock's names, and every runtime matches its version, artifact and payload. |
| `Distribution.ManifestVouches` | crates/compute-cli/src/distribution.rs:459-703 | Two distributions that verify with one manifest have locks of one digest, the same inventory and starters and, with the same lock, the same payload of every runtime that has one. |
| `Distribution.IdentityIsFixed` | crates/compute-cli/src/distribution.rs:459-703 | Of manifests that differ only in their identity at most one verifies. |
| `Distribution.EveryRuntimeIsAccountedFor` | crates/compute-cli/src/distribution.rs:598-682 | In a distribution that verifies, each runtime of the lock is at its version and either supported without a reason or, in a preview only, unavailable with one, the lock having no artifact for the platform. |
| `Distribution.CertifiedIsComplete` | crates/compute-cli/src/distribution.rs:598-682 | A certified distribution that verifies carries every runtime of its lock, from the locked artifact, and each that is a file still reports its version. |
| `Distribution.SameNames` | crates/compute-cli/src/distribution.rs:590-608 | Equal numbers and one inclusion make the two sets of names equal. |
| `Distribution.InstallRuntimes` | crates/compute-cli/src/distribution.rs:189-271 | The installing loop gives the tree and entries of installing each runtime in turn, and fails exactly where one of them does. |
| `Distribution.InstallsExactlyWhen` | crates/compute-cli/src/distribution.rs:191-270 | One runtime installs exactly when its capabilities are known and it either has no artifact for the platform and the build is not certified, leaving the tree as it was, or its artifact can be had and unpacked and its executable is safe and embedded, or there, running and with a payload; its entry records that, the reason in the lock included. |
| `Distribution.InstallsAllExactlyWhen` | crates/compute-cli/src/distribution.rs:189-271 | All runtimes install exactly when each does in the tree its predecessors left. |
| `Distribution.AssemblesExactlyWhen` | crates/compute-cli/src/distribution.rs:140-333 | A build assembles a distribution exactly when its options fit, the base and all runtimes install, the identity can be computed and, if it is to be certified, it certifies. |
| `Distribution.RehashRuntimes` | crates/compute-cli/src/distribution.rs:313-317 | Hashing again replaces every payload digest that is a tree's and nothing else, and fails exactly when a tree is missing. |
| `Distribution.Build` | crates/compute-cli/src/distribution.rs:140-345 | A build ends with a distribution exactly when the lock parses, everything named under `AssemblesExactlyWhen` holds, and the payloads, probes and files found at the end are those of the manifest; it is then the assembled one. |
| `Distribution.AssembledManifestFits` | crates/compute-cli/src/distribution.rs:271-310 | Every assembled manifest has the right schema, status, lock digest, starters, identity and an entry for exactly the lock's runtimes, each matching the lock. |
| `Distribution.AssembledIsGenuineExactlyWhen` | crates/compute-cli/src/distribution.rs:334-337 | What a build assembled verifies exactly when its status is certified or preview, its platform is the host's, Compute and its recipes are in order, and all payloads are still there and run. |
| `Distribution.StableBuildsVerify` | crates/compute-cli/src/distribution.rs:191-337 | If in this build no installation undoes an earlier runtime and certification breaks none, all payloads are there at the end, through the hashing again after certification too, and the distribution verifies exactly when status, platform, Compute and recipes are in order. |
| `Distribution.DisjointBuildsVerify` | crates/compute-cli/src/distribution.rs:191-337 | In particular if installing one runtime of the lock leaves the payload and the own executable of every other alone, on any tree. |
| `Distribution.HomesAreDisjoint` | crates/compute-cli/src/distribution.rs:784-788 | That is so if the lock installs each runtime into the directory of its own name and has its executable there. |
| `TreeDigest.SortByPath` | crates/compute-cli/src/distribution.rs:996 | The sorted walk has the same entries, in strictly increasing order of their paths compared by component. |
| `TreeDigest.HashTree` | crates/compute-cli/src/distribution.rs:987-1018 | The digest is the hash of the fed bytes of a sorted walk without the root, and is refused exactly for a missing tree. |
| `TreeDigest.EditIsFedExactlyWhen` | crates/compute-cli/src/distribution.rs:1000-1015 | Two sorted trees that agree but at one path below the root are fed as the same bytes exactly when that path has the same contents, target or directory. |
| `TreeDigest.TextTellsPaths` | crates/compute-cli/src/distribution.rs:1000-1003 | Different paths are fed as different text. |
| `TreeDigest.RootIsNotFed` | crates/compute-cli/src/distribution.rs:997-999 | The entry of the root itself is not fed. |
| `TreeDigest.WriteArchive` | crates/compute-cli/src/distribution.rs:1031-1085 | The archive is the list of entries of a sorted walk, root first. |
| `TreeDigest.ArchiveRoundTrip` | crates/compute-cli/src/distribution.rs:1031-1085 | Every entry comes out of the archive with the path and kind it went in with, executables executable by their mode, everything readable. |
| `TreeDigest.DigestIgnoresTheWalk` | crates/compute-cli/src/distribution.rs:987-1018 | Two walks with the same set of paths, kinds, contents and link targets feed the hash the same bytes, whatever their order, owners, times or modes. |
| `TreeDigest.ArchiveIgnoresTheWalk` | crates/compute-cli/src/distribution.rs:1031-1085 | Two walks with the same set of those and of executable bits give the same archive. |
| `TreeDigest.ViewsTellEntriesApart` | crates/compute-cli/src/distribution.rs:1000-1015 | What the digest and the archive read of an entry is exactly path, kind, contents and target, and for the archive the executable bit. |
| `TreeDigest.ArchiveDeterminesTheTree` | crates/compute-cli/src/distribution.rs:1031-1085 | Equal archives come from trees with equal paths and contents. |
| `ArtifactCache.Cache.Acquire` | crates/compute-cli/src/distribution.rs:705-748 | The outcome and the entries are those of the five cases, and no unfinished download is left behind. |
| `ArtifactCache.CacheOnlyGainsMatches` | crates/compute-cli/src/distribution.rs:705-748 | Over every sequence of requests with any downloads, no entry changes and every new entry hashes to its name. |
| `ArtifactCache.ReadyForGood` | crates/compute-cli/src/distribution.rs:705-748 | An artifact once acquired can be had offline after any other requests. |
| `ArtifactCache.MismatchForGood` | crates/compute-cli/src/distribution.rs:705-714 | An entry that does not match is never replaced and never used, whatever is requested. |
| `ArtifactCache.OfflineExactlyWhen` | crates/compute-cli/src/distribution.rs:705-748 | After any requests an artifact can be had offline exactly when it matched before, or nothing was under its name and one of them brought it. |
| `ArtifactCache.FailureSays` | crates/compute-cli/src/distribution.rs:715-748 | Each failure is named by its cause and leaves the cache as it was; the request succeeds as soon as it brings the artifact. |
| `ManagedServices.Machine.EnsureRunning` | crates/compute-cli/src/managed.rs:218-239 | The loop starts the services in order and stops at the first that fails. |
| `ManagedServices.Machine.StopAll` | crates/compute-cli/src/managed.rs:360-376 | Stopping ends the recorded processes, removes the pid files, and reports the services that had one. |
| `ManagedServices.RunConverges` | crates/compute-cli/src/managed.rs:213-239 | After a run that succeeds every service is recorded and registered as declared, and its recorded process is there and serves its endpoint exactly when, as the run came to it, nothing served that endpoint, or its recorded process did and answered, and nothing took it before the child. |
| `ManagedServices.StartsExactlyWhen` | crates/compute-cli/src/managed.rs:241-317 | A start succeeds exactly when it is registered and its recorded process is there and the endpoint answers, or it is shipped, starts, and the endpoint is served by anyone and answers in time; a working child on a free endpoint is started and serves. |
| `ManagedServices.RunSucceedsExactlyWhen` | crates/compute-cli/src/managed.rs:213-239 | A run succeeds exactly when each service does in the state the run comes to it in. |
| `ManagedServices.NoChildLeavesAllButThePidFile` | crates/compute-cli/src/managed.rs:263-286 | A start that fails before there is a child removes the pid file and changes nothing else. |
| `ManagedServices.RunServesExactlyWhen` | crates/compute-cli/src/managed.rs:213-239 | For services at different endpoints the same condition is one on the state before the run, the answer at the start and whether another process takes the endpoint meanwhile. |
| `ManagedServices.MissedReadinessLeavesNothing` | crates/compute-cli/src/managed.rs:290-307 | A run that ends at a service that missed readiness leaves no pid file, child or endpoint of it and its registry entry as it was, with all services before it recorded and registered. |
| `ManagedServices.FailedRunRegistersNothingMore` | crates/compute-cli/src/managed.rs:213-239 | A run that fails leaves the registry entries of the service it failed at and of all after it as they were. |
| `ManagedServices.FailedRegistrationIsReconciled` | crates/compute-cli/src/managed.rs:345-357 | After a run that failed at a registration, the next adopts every service the first reached whose process is there and answers, with the pid it has. |
| `ManagedServices.RunKeepsProcesses` | crates/compute-cli/src/managed.rs:241-317 | No run, however it ends, ends a process it did not start. |
| `ManagedServices.ReusesExactlyWhen` | crates/compute-cli/src/managed.rs:250-262 | Where all services are recorded, registered and answered for, a run only adopts, and the whole state stays, exactly when every recorded process is there. |
| `ManagedServices.SecondRunStartsNothingExactlyWhen` | crates/compute-cli/src/managed.rs:250-262 | An immediate second run after a success, with all endpoints answering, starts nothing and changes no pid, process, endpoint or entry exactly when every recorded process is there. |
| `ManagedServices.SecondRunChangesNothing` | crates/compute-cli/src/managed.rs:250-262 | So it is when the way was clear for every service of the first. |
| `ManagedServices.SuccessCanRecordADeadProcess` | crates/compute-cli/src/managed.rs:287-316 | Whenever another process serves the endpoint and answers, a start succeeds whose child is gone. |
| `ManagedServices.StopRemovesExactly` | crates/compute-cli/src/managed.rs:360-376 | Stopping removes exactly the pid files of the declared services and keeps the registry. |
| `ManagedServices.StoppedIsReported` | crates/compute-cli/src/managed.rs:360-376 | What is reported as stopped is exactly the declared services that had a pid file. |
| `ManagedServices.StopEndsExactly` | crates/compute-cli/src/managed.rs:360-414 | A process is ended exactly when a declared service's pid file has its pid, whatever process that is. |
| `ApplicationHome.FindHome` | crates/compute-cli/src/application.rs:967-1015 | The result is the one provider that has the application, nowhere, several, or cannot tell, each exactly in its case. |
| `ApplicationHome.SearchIsDetermined` | crates/compute-cli/src/application.rs:967-1015 | The four cases exclude each other. |
| `ApplicationHome.DeployGoesExactly` | crates/compute-cli/src/application.rs:629-697 | A deploy goes to a provider exactly when placement selects one and either the application is there and the request names no provider or that one, with or without its prefix, or it is nowhere and that one is selected and hosts. |
| `ApplicationHome.DeployKeepsHome` | crates/compute-cli/src/application.rs:629-697 | One deploy with honest answers leaves an existing home and makes at most one. |
| `ApplicationHome.OneHomeForever` | crates/compute-cli/src/application.rs:625-697 | Over every sequence of deploys that do not overlap, with remotes unreachable at will, there is never a second home and an existing one never changes. |
| `ApplicationHome.DoublesExactlyWhen` | crates/compute-cli/src/application.rs:985-1003 | A deploy can make a second home exactly when the home's answer reads as absent, no remote is unreachable and another provider can be selected. |
| `ApplicationHome.OverlapDoublesExactlyWhen` | crates/compute-cli/src/application.rs:629-697 | However looking and acting of several deploys interleave, the application ends with one home at most, and keeps the one it had, exactly when no deploy acted on a look that found it nowhere before a home appeared elsewhere. |
| `ApplicationHome.CurrentLooksAreSafe` | crates/compute-cli/src/application.rs:629-697 | A look is current when taken and while no home appears, and acting on a current look never makes a second home. |
| `ApplicationHome.OverlappingDeploysDouble` | crates/compute-cli/src/application.rs:629-697 | Two deploys that look before either acts and select different providers end on both. |
| `StartArguments.Normalise` | crates/compute-cli/src/main.rs:778-812 | Rewriting in place while reading ahead gives what rewriting the original list gives, and the default subcommands are added. |
| `StartArguments.DefaultsAreAdded` | crates/compute-cli/src/main.rs:793-812 | A call without arguments gets `up`; `placement` and `deployment` without a subcommand of theirs get `inspect`; nothing else is added. |
| `StartArguments.NormalisedOnceExactlyWhen` | crates/compute-cli/src/main.rs:778-812 | Normalising twice is normalising once, exactly unless the program is called `--policy` and has no arguments. |
| `StartArguments.PolicyIsRewrittenExactlyWhen` | crates/compute-cli/src/main.rs:780-792 | An argument is rewritten exactly when it is `--policy` followed by something that is no placement policy. |
| `StartArguments.StateArguments` | crates/compute-cli/src/control_state.rs:305-331 | The nested options are written in order, each present one once with its value. |
| `StartArguments.Rebuild` | crates/compute-cli/src/environment_cmd.rs:780-852 | The rebuilt list is `start` and then every option but `--detach` and `--json`, as the command has it. |
| `StartArguments.OrderIsEverything` | crates/compute-cli/src/environment_cmd.rs:132-235 | Every declared option but those two is written, and only once. |
| `StartArguments.ListSurvivesExactlyWhen` | crates/compute-cli/src/environment_cmd.rs:852 | A list survives joining and splitting exactly when it has an element and no element has a comma. |
| `StartArguments.DetachedStartExactlyWhen` | crates/compute-cli/src/environment_cmd.rs:780-852 | Normalising and parsing the rebuilt list gives back the command with only `detach` and `json` cleared exactly when it fits and no value starts with a hyphen and its policy is not a file; otherwise it is refused or differs. |
| `StartArguments.AcceptedFits` | crates/compute-cli/src/environment_cmd.rs:132-235 | Every command the parser accepts has its TLS pair together, no conflicting options, no empty path, and a nonempty comma-free offer. |
| `StartArguments.SecondTimeIsRefused` | crates/compute-cli/src/environment_cmd.rs:132-235 | An option that was given is refused the second time, attached or not, except `--offer`. |
| `StartArguments.NothingIsIgnored` | crates/compute-cli/src/environment_cmd.rs:132-235 | Every value that was accepted is in the command, numbers as the number they denote. |
| `StartArguments.StartAlone` | crates/compute-cli/src/environment_cmd.rs:132-235 | `start` alone is the command with every default. |
| `StartArguments.AcceptedStartsAgainExactlyWhen` | crates/compute-cli/src/environment_cmd.rs:780-852 | For every accepted command line the round trip holds exactly when its values can be repeated. |
| `StartArguments.PolicyFileIsRefused` | crates/compute-cli/src/main.rs:780-792 | `start` with `--policy FILE` anywhere is refused. |
| `StartArguments.PolicyFileIsNotRepeated` | crates/compute-cli/src/main.rs:780-792 | `start --detach --policy=FILE` is accepted and its background process refused, for every file. |
| `StartArguments.HyphenIsNotRepeated` | crates/compute-cli/src/environment_cmd.rs:787-788 | The same for every directory that starts with a hyphen. |
| `ProcessTree.IndexChildren` | scripts/platform-audit/measure_compute.py:105-108 | The dictionary lists exactly each process's children in the order of the snapshot. |
| `ProcessTree.Descendants` | scripts/platform-audit/measure_compute.py:99-114 | The result has every proper descendant once and nothing else. |
| `ProcessTree.CycleNeverStops` | scripts/platform-audit/measure_compute.py:109-113 | A cycle through the process keeps one of its members on the stack forever. |
| `ProcessTree.StopsExactlyWhen` | scripts/platform-audit/measure_compute.py:109-113 | With one parent each, the walk ends exactly when the process is not its own descendant. |
| `ProcessTree.ParentsOfEachOther` | scripts/platform-audit/measure_compute.py:109-113 | On a snapshot of two processes that are each other's parents it does not end. |

## Left out

- Retention of ended jobs, expiry of reservations, and records written before reservations existed.
- Failed writes and unreadable files, except a crash between the two durable writes of a job's admission or result, and the steps where a task gives up.
- Session creations whose acknowledgement never arrives: the client keeps only acknowledged ids.
- AgentHost.Host.Acquire: the counters are unbounded, the original's wrap at 64 bits.
- HandOver.StepKeepsInvariant: waiting for a child that was started is taken to end only when that child has ended; an error from the wait itself is not modelled.
- HandOver.RecordMovesAlongEdges: what a controller does between taking over and storing its status, and the supervisor that keeps workloads running, are not part of this model.
- HandOver.FollowUpgrade: time is the number of replies before the deadline.
- AttachRelay.Send: raw terminal mode and the terminal's size are not modelled, only that a resize is sent.
- LogFollow.Follow: the lossy decoding of invalid bytes by the daemon is not modelled; snapshots are valid text.
- LogFollow.EachPrintsTheNewExactlyWhen: a reply is the whole tail or nothing; the bound of 16 MiB on what a session command keeps of its output, which cuts longer tails short, is not modelled.
- Distribution.Build: unpacking, `safe_join`, copying and running executables are functions of the tree; the operating system and architecture fields, the final rename and the archive beside it are left out.
- TreeDigest.HashTree: paths and link targets that are not UTF-8, entries that are neither file, link nor directory, and unreadable files are not modelled; nothing is claimed about different trees having different digests.
- Distribution.HomesAreDisjoint: installing is taken to write only to the destinations it is given; a link inside a tree that leads out of it is not modelled.
- ArtifactCache.Cache.Acquire: two processes downloading the same artifact at once are not modelled.
- ManagedServices.Machine.EnsureRunning: the waiting in `stop_pid` and exited children that were not reaped are not modelled; a process that was told to stop is gone. Processes that exit or take an endpoint between two starts are not modelled, nor is a child that exits after it answered.
- ApplicationHome.FindHome: a client that cannot be constructed ends the search with an error and is not modelled.
- StartArguments.DetachedStartExactlyWhen: addresses are texts that parse and print unchanged, and paths are UTF-8; help and version flags are not options of the model.
- Size and duration parsing (`parse_memory`, `parse_duration`), security modes and other small tables would only add easy members.
- Placement, policy, the state stores, the network, printing and the certification harnesses are not part of this model.
