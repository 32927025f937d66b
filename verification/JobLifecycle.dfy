// One background job as a protocol: its worker, its heartbeat thread, any number of
// sweepers in any process, the retention cleanup, a crash of the owner and the clock,
// interleaved at the granularity of single reads and writes of the job's record file.
module JobLifecycle {
  import opened Common
  import opened JobRecords

  // A submitted job, and whether the orchestrator has a circuit breaker.
  datatype Config = Config(job: Job, submittedAt: int, breaker: bool)

  // Where the worker is. Begun: its start stamp is taken; Ending: the body is over; Stopping: the heartbeat was told to stop.
  datatype Phase = Queued | Begun | Loaded | Running | Ending | Stopping | Joined | Reported | Finished

  // Awake: a wait has run out; Holding: an incomplete record was read; Stamped: it was restamped and is still to be written.
  datatype Beat = Unborn | Waiting | Awake | Holding(rec: JobRecord) | Stamped(rec: JobRecord, at: int) | Dead

  datatype Outcome = Returned(end: Terminal) | Raised(error: string)

  datatype Report = SuccessReport | FailureReport

  datatype State = State(
    file: Option<JobRecord>,        // the record file
    phase: Phase,
    beat: Beat,
    snapshot: Option<JobRecord>,    // what the worker read at start
    startedAt: int,
    outcome: Option<Outcome>,
    pending: map<int, JobRecord>,   // sweepers that have decided and not yet written
    now: int,
    alive: set<Pid>,
    crashed: bool,
    stampedAt: int,                 // the last stamp this job wrote
    due: int,                       // when the heartbeat's current wait runs out
    stoppedAt: int,                 // when the heartbeat was told to stop
    reports: seq<Report>,
    terminals: seq<JobRecord>)      // terminal records the worker has written

  datatype Action =
    | Tick(elapsed: nat)
    | Begin | Load | SaveStarted | Return(end: Terminal) | Raise(error: string) | Stop | Join | SendReport
    | SaveTerminal(duration: int)
    | BeatWake | BeatRead | BeatStamp | BeatSave | BeatExit
    | SweepRead(sweeper: int) | SweepWrite(sweeper: int)
    | Delete | Crash | Recycle

  function Init(c: Config): State {
    State(Some(SubmitRecord(c.job, c.submittedAt)), Queued, Unborn, None, c.submittedAt, None, map[],
          c.submittedAt, {c.job.owner}, false, c.submittedAt, c.submittedAt, c.submittedAt, [], [])
  }

  function EndOf(outcome: Outcome): Terminal {
    match outcome
    case Returned(end) => end
    case Raised(error) => Failed(error)
  }

  function ReportFor(end: Terminal): Report {
    if end.Failed? then FailureReport else SuccessReport
  }

  function WorkerStep(c: Config, s: State, a: Action): Option<State> {
    match a
    case Begin =>
      if !s.phase.Queued? then None else Some(s.(phase := Begun, startedAt := s.now))
    case Load =>
      if !s.phase.Begun? then None else Some(s.(phase := Loaded, snapshot := s.file))
    case SaveStarted =>
      if !s.phase.Loaded? then None
      else
        var file := if s.snapshot.None? then s.file
                    else Some(StartedRecord(s.snapshot.value, s.startedAt, c.job.attachmentFile));
        Some(s.(phase := Running, beat := Waiting, stampedAt := s.startedAt, due := s.now + HALF_LEASE, file := file))
    case Return(end) =>
      // A failing text is reported before the heartbeat context is left.
      if !s.phase.Running? then None
      else Some(s.(phase := Ending, outcome := Some(Returned(end)),
                   reports := if c.breaker && end.Failed? then s.reports + [FailureReport] else s.reports))
    case Raise(error) =>
      if !s.phase.Running? then None else Some(s.(phase := Ending, outcome := Some(Raised(error))))
    case Stop =>
      if !s.phase.Ending? then None else Some(s.(phase := Stopping, stoppedAt := s.now))
    case Join =>
      if !s.phase.Stopping? || !s.beat.Dead? then None else Some(s.(phase := Joined))
    case SendReport =>
      // An exception is reported in its handler, a success just before its record is saved.
      if !s.phase.Joined? || s.outcome.None? then None
      else if !c.breaker || (s.outcome.value.Returned? && s.outcome.value.end.Failed?) then Some(s.(phase := Reported))
      else Some(s.(phase := Reported, reports := s.reports + [ReportFor(EndOf(s.outcome.value))]))
    case SaveTerminal(duration) =>
      if !s.phase.Reported? || s.outcome.None? then None
      else
        var rec := TerminalRecord(c.job, s.snapshot, s.startedAt, s.now, duration, EndOf(s.outcome.value));
        Some(s.(phase := Finished, file := Some(rec), terminals := s.terminals + [rec]))
    case _ => None
  }

  function BeatStep(s: State, a: Action): Option<State> {
    match a
    case BeatWake =>
      if !s.beat.Waiting? || s.phase.Stopping? || s.now < s.due then None else Some(s.(beat := Awake))
    case BeatRead =>
      if !s.beat.Awake? then None
      else if s.file.None? || s.file.value.completed then Some(s.(beat := Waiting, due := s.now + HALF_LEASE))
      else Some(s.(beat := Holding(s.file.value)))
    case BeatStamp =>
      if !s.beat.Holding? then None else Some(s.(beat := Stamped(s.beat.rec, s.now)))
    case BeatSave =>
      if !s.beat.Stamped? then None
      else Some(s.(beat := Waiting, file := Some(BeatRecord(s.beat.rec, s.beat.at)), stampedAt := s.beat.at,
                   due := s.now + HALF_LEASE))
    case BeatExit =>
      if !s.beat.Waiting? || !s.phase.Stopping? then None else Some(s.(beat := Dead))
    case _ => None
  }

  function OutsideStep(c: Config, s: State, a: Action): Option<State> {
    match a
    case Tick(elapsed) => Some(s.(now := s.now + elapsed))
    case SweepRead(k) =>
      if k in s.pending then None
      else if s.file.None? || !IsZombie(s.file.value, s.now, s.alive) then Some(s)
      else Some(s.(pending := s.pending[k := ZombieRecord(s.file.value, s.now, s.alive)]))
    case SweepWrite(k) =>
      if k in s.pending then Some(s.(file := Some(s.pending[k]), pending := s.pending - {k})) else None
    case Delete => Some(s.(file := None))
    case Crash => Some(s.(crashed := true, alive := s.alive - {c.job.owner}))
    case Recycle => if s.crashed then Some(s.(alive := s.alive + {c.job.owner})) else None
    case _ => None
  }

  predicate IsWorkerAction(a: Action) {
    a.Begin? || a.Load? || a.SaveStarted? || a.Return? || a.Raise? || a.Stop? || a.Join? || a.SendReport? || a.SaveTerminal?
  }

  predicate IsBeatAction(a: Action) {
    a.BeatWake? || a.BeatRead? || a.BeatStamp? || a.BeatSave? || a.BeatExit?
  }

  /** One atomic step, or nothing when the action is not enabled. A crashed owner takes its threads with it. */
  function Step(c: Config, s: State, a: Action): Option<State> {
    if IsWorkerAction(a) then (if s.crashed then None else WorkerStep(c, s, a))
    else if IsBeatAction(a) then (if s.crashed then None else BeatStep(s, a))
    else OutsideStep(c, s, a)
  }

  /** Every interleaving is a sequence of actions. */
  function Exec(c: Config, s: State, acts: seq<Action>): Option<State>
    decreases |acts|
  {
    if acts == [] then Some(s)
    else
      var next := Step(c, s, acts[0]);
      if next.None? then None else Exec(c, next.value, acts[1..])
  }

  // The facts a record keeps from submission to its terminal write.
  predicate SameJob(c: Config, r: JobRecord) {
    && r.jobId == c.job.id
    && r.createdAt == At(c.submittedAt)
    && r.ownerPid == Some(c.job.owner)
    && r.inputFile == Some(c.job.inputFile)
    && r.attachmentFile == c.job.attachmentFile
    && r.outputFile == c.job.outputFile
  }

  function ReportsDue(c: Config, s: State): seq<Report> {
    if !c.breaker || s.outcome.None? then []
    else if s.phase.Reported? || s.phase.Finished? then [ReportFor(EndOf(s.outcome.value))]
    else if s.outcome.value.Returned? && s.outcome.value.end.Failed? then [FailureReport]
    else []
  }

  predicate PhasesAgree(s: State) {
    && (IsUnstarted(s) || s.phase.Running? <==> s.outcome.None?)
    && (IsUnstarted(s) <==> s.beat.Unborn?)
    && (s.beat.Dead? ==> s.phase.Stopping? || s.phase.Joined? || s.phase.Reported? || s.phase.Finished?)
    && (s.phase.Joined? || s.phase.Reported? || s.phase.Finished? ==> s.beat.Dead?)
    && (s.phase.Queued? || s.phase.Begun? ==> s.snapshot.None?)
  }

  predicate IsUnstarted(s: State) { s.phase.Queued? || s.phase.Begun? || s.phase.Loaded? }

  /** r is the terminal record of this run of the job: its outcome, nobody else's. */
  predicate IsTerminalOf(c: Config, s: State, r: JobRecord) {
    && s.outcome.Some? && r.completedAt.At? && r.duration.Some?
    && r == TerminalRecord(c.job, s.snapshot, s.startedAt, r.completedAt.time, r.duration.value, EndOf(s.outcome.value))
  }

  predicate TerminalAgrees(c: Config, s: State) {
    if s.phase.Finished? then |s.terminals| == 1 && IsTerminalOf(c, s, s.terminals[0])
    else s.terminals == []
  }

  predicate FileAgrees(c: Config, s: State, r: JobRecord) {
    && (r.completed || (!s.phase.Finished? && (s.phase.Queued? || s.phase.Begun? || s.snapshot.Some?) && r.heartbeatAt == At(s.stampedAt)))
    && (SameJob(c, r) || (s.phase.Finished? && s.snapshot.None? && s.terminals == [r]))
    && (r.completed && s.terminals != [r] ==> IsVerdict(r.error) && r.latestEvent == Some(DispatchAcknowledged))
    && (!r.completed ==> IsInProgress(c, s, r))
  }

  /** One of the two errors a sweep gives. */
  predicate IsVerdict(error: Option<JobError>) { error == Some(HeartbeatExpired) || error == Some(ProcessExited) }

  predicate ThreadsAgree(c: Config, s: State) {
    && PhasesAgree(s)
    && TerminalAgrees(c, s)
    && s.reports == ReportsDue(c, s)
    && (s.snapshot.Some? ==> SameJob(c, s.snapshot.value) && s.snapshot.value.latestEvent == Some(DispatchAcknowledged))
    && (s.beat.Holding? || s.beat.Stamped? ==> SameJob(c, s.beat.rec) && IsInProgress(c, s, s.beat.rec) && s.snapshot.Some?)
    && (s.beat.Stamped? ==> s.stampedAt <= s.beat.at <= s.now)
    && (!s.crashed ==> c.job.owner in s.alive)
    && (IsUnstarted(s) ==> s.stampedAt == c.submittedAt)
    && s.stampedAt <= s.now && s.stoppedAt <= s.now && c.submittedAt <= s.startedAt <= s.now
  }

  predicate PendingAgrees(c: Config, pending: map<int, JobRecord>) {
    forall k | k in pending :: pending[k].completed && IsVerdict(pending[k].error) && pending[k].latestEvent == Some(DispatchAcknowledged)
      && SameJob(c, pending[k])
  }

  predicate Inv(c: Config, s: State) {
    && ThreadsAgree(c, s)
    && (s.file.Some? ==> FileAgrees(c, s, s.file.value))
    && PendingAgrees(c, s.pending)
  }

  lemma InitHolds(c: Config)
    ensures Inv(c, Init(c))
  {}

  lemma StartKeepsInv(c: Config, s: State, a: Action)
    requires Inv(c, s) && !s.crashed && IsUnstarted(s) && WorkerStep(c, s, a).Some?
    ensures Inv(c, WorkerStep(c, s, a).value)
  {
    match a
    case Begin =>
    case Load =>
    case SaveStarted =>
    case _ =>
  }

  lemma EndKeepsInv(c: Config, s: State, a: Action)
    requires Inv(c, s) && !s.crashed && !IsUnstarted(s) && WorkerStep(c, s, a).Some?
    ensures Inv(c, WorkerStep(c, s, a).value)
  {
    match a
    case Return(end) =>
    case Raise(error) =>
    case Stop =>
    case Join =>
    case SendReport =>
    case SaveTerminal(duration) =>
    case _ =>
  }

  lemma BeatKeepsInv(c: Config, s: State, a: Action)
    requires Inv(c, s) && !s.crashed && BeatStep(s, a).Some?
    ensures Inv(c, BeatStep(s, a).value)
  {
    match a
    case BeatWake =>
    case BeatRead =>
    case BeatStamp =>
    case BeatSave =>
    case BeatExit =>
    case _ =>
  }

  lemma ZombieKeepsJob(c: Config, r: JobRecord, now: int, alive: set<Pid>)
    requires SameJob(c, r)
    ensures var z := ZombieRecord(r, now, alive); SameJob(c, z) && z.completed && IsVerdict(z.error) && z.latestEvent == r.latestEvent
  {}

  lemma OnlyPendingChanges(c: Config, s: State, pending: map<int, JobRecord>)
    requires Inv(c, s) && PendingAgrees(c, pending)
    ensures Inv(c, s.(pending := pending))
  {}

  lemma SweepReadKeepsInv(c: Config, s: State, k: int)
    requires Inv(c, s) && k !in s.pending
    ensures Inv(c, OutsideStep(c, s, SweepRead(k)).value)
  {
    if s.file.Some? && IsZombie(s.file.value, s.now, s.alive) {
      ZombieKeepsJob(c, s.file.value, s.now, s.alive);
      OnlyPendingChanges(c, s, s.pending[k := ZombieRecord(s.file.value, s.now, s.alive)]);
    }
  }

  lemma SweepWriteKeepsInv(c: Config, s: State, k: int)
    requires Inv(c, s) && k in s.pending
    ensures Inv(c, OutsideStep(c, s, SweepWrite(k)).value)
  {
    var t := OutsideStep(c, s, SweepWrite(k)).value;
    assert FileAgrees(c, t, s.pending[k]);
  }

  lemma OutsideKeepsInv(c: Config, s: State, a: Action)
    requires Inv(c, s) && OutsideStep(c, s, a).Some?
    ensures Inv(c, OutsideStep(c, s, a).value)
  {
    match a
    case SweepRead(k) => SweepReadKeepsInv(c, s, k);
    case SweepWrite(k) => SweepWriteKeepsInv(c, s, k);
    case Tick(elapsed) =>
    case Delete =>
    case Crash =>
    case Recycle =>
    case _ =>
  }

  lemma StepKeepsInv(c: Config, s: State, a: Action)
    requires Inv(c, s) && Step(c, s, a).Some?
    ensures Inv(c, Step(c, s, a).value)
  {
    if IsWorkerAction(a) {
      if IsUnstarted(s) {
        StartKeepsInv(c, s, a);
      } else {
        EndKeepsInv(c, s, a);
      }
    } else if IsBeatAction(a) {
      BeatKeepsInv(c, s, a);
    } else {
      OutsideKeepsInv(c, s, a);
    }
  }

  lemma {:induction false} RunKeepsInv(c: Config, s: State, acts: seq<Action>)
    requires Inv(c, s) && Exec(c, s, acts).Some?
    ensures Inv(c, Exec(c, s, acts).value)
    decreases |acts|
  {
    if acts != [] {
      StepKeepsInv(c, s, acts[0]);
      RunKeepsInv(c, Step(c, s, acts[0]).value, acts[1..]);
    }
  }

  predicate EndsTheBody(a: Action) { a.Return? || a.Raise? }

  lemma StepKeepsOutcome(c: Config, s: State, a: Action)
    requires Inv(c, s) && s.outcome.Some? && Step(c, s, a).Some?
    ensures Step(c, s, a).value.outcome == s.outcome
  {}

  lemma {:induction false} OutcomeStays(c: Config, s: State, acts: seq<Action>)
    requires Inv(c, s) && s.outcome.Some? && Exec(c, s, acts).Some?
    ensures Exec(c, s, acts).value.outcome == s.outcome
    decreases |acts|
  {
    if acts != [] {
      StepKeepsInv(c, s, acts[0]);
      StepKeepsOutcome(c, s, acts[0]);
      OutcomeStays(c, Step(c, s, acts[0]).value, acts[1..]);
    }
  }

  /** Whatever ends the body, wherever in the run, is the outcome from then on. */
  lemma {:induction false} OutcomeIsWhatEndedTheBody(c: Config, s: State, acts: seq<Action>, i: nat)
    requires Inv(c, s) && Exec(c, s, acts).Some? && i < |acts| && EndsTheBody(acts[i])
    ensures Exec(c, s, acts).value.outcome ==
      Some(match acts[i] { case Return(end) => Returned(end) case Raise(error) => Raised(error) case _ => Raised("") })
    decreases |acts|
  {
    var next := Step(c, s, acts[0]).value;
    StepKeepsInv(c, s, acts[0]);
    if i == 0 {
      OutcomeStays(c, next, acts[1..]);
    } else {
      OutcomeIsWhatEndedTheBody(c, next, acts[1..], i - 1);
    }
  }

  lemma {:induction false} SomethingEndedTheBody(c: Config, s: State, acts: seq<Action>)
    requires s.outcome.None? && Exec(c, s, acts).Some? && Exec(c, s, acts).value.outcome.Some?
    ensures exists i :: 0 <= i < |acts| && EndsTheBody(acts[i])
    decreases |acts|
  {
    if EndsTheBody(acts[0]) {
    } else {
      SomethingEndedTheBody(c, Step(c, s, acts[0]).value, acts[1..]);
      var i :| 0 <= i < |acts[1..]| && EndsTheBody(acts[1..][i]);
      assert EndsTheBody(acts[i + 1]);
    }
  }

  /** The record and the report of a job that failed with this error. */
  predicate TellsFailure(c: Config, s: State, error: string) {
    && |s.terminals| == 1 && s.terminals[0].error == Some(RunError(error))
    && s.terminals[0].resultPreview.None? && s.terminals[0].latestEvent == Some(RunFailed)
    && s.reports == if c.breaker then [FailureReport] else []
  }

  /** The record and the report of a job that succeeded with this preview. */
  predicate TellsSuccess(c: Config, s: State, preview: Option<string>) {
    && |s.terminals| == 1 && s.terminals[0].error.None?
    && s.terminals[0].resultPreview == preview && s.terminals[0].latestEvent == Some(GenerationFinished)
    && s.reports == if c.breaker then [SuccessReport] else []
  }

  /** A complete record of this job; it takes over creation time and owner from the record read at the start, if any. */
  predicate IsCompleteRecord(c: Config, s: State, r: JobRecord) {
    && r.completed && r.jobId == c.job.id && r.startedAt == At(s.startedAt) && r.heartbeatAt == r.completedAt
    && r.inputFile == Some(c.job.inputFile) && r.attachmentFile == c.job.attachmentFile && r.outputFile == c.job.outputFile
    && (if s.snapshot.Some? then r.createdAt == At(c.submittedAt) && r.ownerPid == Some(c.job.owner)
        else r.createdAt == At(s.startedAt) && r.ownerPid.None?)
  }

  /** Along every run the worker writes one terminal record and sends one report, and what they say is what the body
      ended in: an exception and a failing text are failures with that text, anything else is a success. */
  lemma OneTerminalOneReport(c: Config, acts: seq<Action>)
    requires Exec(c, Init(c), acts).Some?
    ensures var s := Exec(c, Init(c), acts).value;
      && |s.reports| <= 1 && |s.terminals| <= 1
      && (s.phase.Finished? <==> |s.terminals| == 1)
      && (s.phase.Finished? ==>
            && IsCompleteRecord(c, s, s.terminals[0])
            && (exists i :: 0 <= i < |acts| && EndsTheBody(acts[i]))
            && forall i | 0 <= i < |acts| ::
                && (acts[i].Raise? ==> TellsFailure(c, s, acts[i].error))
                && (acts[i].Return? && acts[i].end.Failed? ==> TellsFailure(c, s, acts[i].end.error))
                && (acts[i].Return? && acts[i].end.Succeeded? ==> TellsSuccess(c, s, acts[i].end.preview)))
  {
    InitHolds(c);
    RunKeepsInv(c, Init(c), acts);
    if Exec(c, Init(c), acts).value.phase.Finished? {
      SomethingEndedTheBody(c, Init(c), acts);
      forall i: nat | i < |acts| && EndsTheBody(acts[i])
        ensures Exec(c, Init(c), acts).value.outcome ==
          Some(match acts[i] { case Return(end) => Returned(end) case Raise(error) => Raised(error) case _ => Raised("") })
      {
        OutcomeIsWhatEndedTheBody(c, Init(c), acts, i);
      }
    }
  }

  /** Action k of the run writes the terminal record: its stamp is the time at that step, its duration the step's. */
  predicate IsWrittenAt(c: Config, s: State, acts: seq<Action>, k: int, r: JobRecord) {
    && 0 <= k < |acts| && acts[k].SaveTerminal? && Exec(c, s, acts[..k]).Some?
    && r.completedAt == At(Exec(c, s, acts[..k]).value.now) && r.duration == Some(acts[k].duration)
  }

  lemma FinishingStepStamps(c: Config, s: State, a: Action)
    requires Inv(c, s) && !s.phase.Finished? && Step(c, s, a).Some? && Step(c, s, a).value.phase.Finished?
    ensures a.SaveTerminal?
    ensures var t := Step(c, s, a).value;
      |t.terminals| == 1 && t.terminals[0].completedAt == At(s.now) && t.terminals[0].duration == Some(a.duration)
  {}

  lemma WrittenOneLater(c: Config, s: State, acts: seq<Action>, k: int, r: JobRecord)
    requires acts != [] && Step(c, s, acts[0]).Some? && IsWrittenAt(c, Step(c, s, acts[0]).value, acts[1..], k, r)
    ensures IsWrittenAt(c, s, acts, k + 1, r)
  {
    assert acts[..k + 1][1..] == acts[1..][..k];
  }

  /** The terminal record is stamped with the time of the step that wrote it, and carries its duration. */
  lemma {:induction false} TerminalIsStampedWhenWritten(c: Config, s: State, acts: seq<Action>)
    requires Inv(c, s) && !s.phase.Finished? && Exec(c, s, acts).Some? && Exec(c, s, acts).value.phase.Finished?
    ensures var t := Exec(c, s, acts).value;
      |t.terminals| == 1 && exists k :: IsWrittenAt(c, s, acts, k, t.terminals[0])
    decreases |acts|
  {
    var next := Step(c, s, acts[0]).value;
    StepKeepsInv(c, s, acts[0]);
    if next.phase.Finished? {
      FinishedIsFinal(c, next, acts[1..]);
      FinishingStepStamps(c, s, acts[0]);
      assert acts[..0] == [];
      assert IsWrittenAt(c, s, acts, 0, next.terminals[0]);
    } else {
      TerminalIsStampedWhenWritten(c, next, acts[1..]);
      var r := Exec(c, next, acts[1..]).value.terminals[0];
      var k :| IsWrittenAt(c, next, acts[1..], k, r);
      WrittenOneLater(c, s, acts, k, r);
    }
  }

  /** While a job is unfinished, an incomplete record shows it in progress: its start once it has started, and nothing yet
      of an end. */
  predicate IsInProgress(c: Config, s: State, r: JobRecord) {
    && r.latestEvent == Some(DispatchAcknowledged) && r.startedAt == (if IsUnstarted(s) then Missing else At(s.startedAt))
    && r.completedAt == Missing && r.duration.None? && r.error.None? && r.resultPreview.None?
  }

  lemma IncompleteMeansInProgress(c: Config, acts: seq<Action>)
    requires Exec(c, Init(c), acts).Some?
    ensures var s := Exec(c, Init(c), acts).value;
      s.file.Some? && !s.file.value.completed ==> IsInProgress(c, s, s.file.value)
  {
    InitHolds(c);
    RunKeepsInv(c, Init(c), acts);
  }

  /** Identity, creation time, owner and paths survive every interleaving, unless the record was deleted before start. */
  lemma IdentityIsKept(c: Config, acts: seq<Action>)
    requires Exec(c, Init(c), acts).Some?
    ensures var s := Exec(c, Init(c), acts).value;
      s.file.Some? ==> SameJob(c, s.file.value) || (s.phase.Finished? && s.snapshot.None? && s.terminals == [s.file.value])
  {
    InitHolds(c);
    RunKeepsInv(c, Init(c), acts);
  }

  lemma FinishedStep(c: Config, s: State, a: Action)
    requires Inv(c, s) && s.phase.Finished? && Step(c, s, a).Some?
    ensures var t := Step(c, s, a).value;
      && t.phase == s.phase && t.terminals == s.terminals && t.reports == s.reports
      && (a.Delete? || a.SweepWrite? || t.file == s.file)
  {}

  lemma {:induction false} FinishedIsFinal(c: Config, s: State, acts: seq<Action>)
    requires Inv(c, s) && s.phase.Finished? && Exec(c, s, acts).Some?
    ensures var t := Exec(c, s, acts).value; t.phase.Finished? && t.terminals == s.terminals && t.reports == s.reports
    decreases |acts|
  {
    if acts != [] {
      StepKeepsInv(c, s, acts[0]);
      FinishedStep(c, s, acts[0]);
      FinishedIsFinal(c, Step(c, s, acts[0]).value, acts[1..]);
    }
  }

  /** After the terminal write nothing makes the record incomplete again, whoever steps. */
  lemma TerminalStaysComplete(c: Config, before: seq<Action>, after: seq<Action>)
    requires Exec(c, Init(c), before).Some? && Exec(c, Init(c), before).value.phase.Finished?
    requires Exec(c, Exec(c, Init(c), before).value, after).Some?
    ensures var t := Exec(c, Exec(c, Init(c), before).value, after).value;
      && t.terminals == Exec(c, Init(c), before).value.terminals
      && (t.file.Some? ==> t.file.value.completed && (t.terminals == [t.file.value] || t.file.value.error.Some?))
  {
    InitHolds(c);
    RunKeepsInv(c, Init(c), before);
    var s := Exec(c, Init(c), before).value;
    FinishedIsFinal(c, s, after);
    RunKeepsInv(c, s, after);
  }

  /** A live owner's incomplete record is a zombie exactly when its last stamp is more than a lease old. */
  lemma LiveJobIsReapedExactlyWhenOverdue(c: Config, acts: seq<Action>)
    requires Exec(c, Init(c), acts).Some?
    ensures var s := Exec(c, Init(c), acts).value;
      !s.crashed && s.file.Some? && !s.file.value.completed ==>
        (IsZombie(s.file.value, s.now, s.alive) <==> s.now - s.stampedAt > JOB_HEARTBEAT_LEASE_SEC)
  {
    InitHolds(c);
    RunKeepsInv(c, Init(c), acts);
  }

  lemma SweepReclaims(c: Config, s: State, k: int)
    requires s.file.Some? && k !in s.pending && IsZombie(s.file.value, s.now, s.alive)
    ensures Exec(c, s, [SweepRead(k), SweepWrite(k)]).Some?
    ensures Exec(c, s, [SweepRead(k), SweepWrite(k)]).value.file == Some(ZombieRecord(s.file.value, s.now, s.alive))
  {
    Two(c, s, SweepRead(k), SweepWrite(k));
  }

  /** A crashed owner's record is reclaimed by one sweep exactly when the pid is gone or the stamp is past the lease. */
  lemma CrashedJobIsReclaimed(c: Config, acts: seq<Action>, k: int)
    requires Exec(c, Init(c), acts).Some?
    requires var s := Exec(c, Init(c), acts).value;
      s.crashed && s.file.Some? && !s.file.value.completed && k !in s.pending
    ensures var s := Exec(c, Init(c), acts).value;
      if c.job.owner !in s.alive || s.now - s.stampedAt > JOB_HEARTBEAT_LEASE_SEC then
        && Exec(c, s, [SweepRead(k), SweepWrite(k)]).Some?
        && s.file.value.ownerPid.Some?
        && Exec(c, s, [SweepRead(k), SweepWrite(k)]).value.file == Some(ZombieRecord(s.file.value, s.now, s.alive))
      else Step(c, s, SweepRead(k)) == Some(s)
  {
    InitHolds(c);
    RunKeepsInv(c, Init(c), acts);
    var s := Exec(c, Init(c), acts).value;
    if IsZombie(s.file.value, s.now, s.alive) {
      SweepReclaims(c, s, k);
    }
  }

  lemma Three(c: Config, s: State, a: Action, b: Action, d: Action)
    requires Step(c, s, a).Some? && Step(c, Step(c, s, a).value, b).Some?
    ensures Exec(c, s, [a, b, d]) == Step(c, Step(c, Step(c, s, a).value, b).value, d)
  {
    Two(c, Step(c, s, a).value, b, d);
    assert [a, b, d][1..] == [b, d];
  }

  lemma Two(c: Config, s: State, a: Action, b: Action)
    requires Step(c, s, a).Some?
    ensures Exec(c, s, [a, b]) == Step(c, Step(c, s, a).value, b)
  {
    var t := Step(c, s, a).value;
    assert [a, b][1..] == [b];
    assert Exec(c, t, [b]) == Step(c, t, b) by {
      assert [b][1..] == [];
    }
  }

  // ----- Lease safety -----

  // How slow a job may be: in the queue, between taking a stamp and beginning the wait after it, from the end of a wait
  // to the beat it brings, and from the stop of the heartbeat to the terminal write.
  datatype Bounds = Bounds(queue: nat, gap: nat, late: nat, tail: nat)

  /** So far nothing has taken longer than its bound. */
  predicate Timely(b: Bounds, c: Config, s: State) {
    match s.phase
    case Queued => s.now - c.submittedAt <= b.queue
    case Begun => s.now - s.startedAt <= b.gap
    case Loaded => s.now - s.startedAt <= b.gap
    case Running => BeatIsTimely(b, s)
    case Ending => BeatIsTimely(b, s)
    case Finished => true
    case _ => s.now - s.stoppedAt <= b.tail
  }

  predicate BeatIsTimely(b: Bounds, s: State) {
    s.now - s.due <= b.late && (s.beat.Stamped? ==> s.now - s.beat.at <= b.gap)
  }

  /** A run whose owner does not crash and that is timely in every state it passes. */
  predicate TimelyRun(b: Bounds, c: Config, s: State, acts: seq<Action>)
    decreases |acts|
  {
    && Timely(b, c, s)
    && (acts != [] ==>
          && !acts[0].Crash?
          && Step(c, s, acts[0]).Some?
          && TimelyRun(b, c, Step(c, s, acts[0]).value, acts[1..]))
  }

  /** What the lease leaves room for: queue and start, and the slack of every beat up to the terminal write. */
  predicate Tolerates(b: Bounds) {
    && b.queue + b.gap <= JOB_HEARTBEAT_LEASE_SEC
    && HALF_LEASE + b.gap + b.late + b.tail <= JOB_HEARTBEAT_LEASE_SEC
  }

  // No sweeper has decided on this job, and only its own terminal write has completed it.
  predicate Untouched(c: Config, s: State) {
    && Inv(c, s) && !s.crashed
    && s.pending == map[]
    && (s.file.Some? ==> if s.phase.Finished? then s.terminals == [s.file.value] else !s.file.value.completed)
  }

  /** How far the written stamp can lie behind the schedule. */
  predicate OnSchedule(b: Bounds, c: Config, s: State) {
    match s.phase
    case Queued => true
    case Begun => s.startedAt - c.submittedAt <= b.queue
    case Loaded => s.startedAt - c.submittedAt <= b.queue
    case Running => s.due <= s.stampedAt + b.gap + HALF_LEASE
    case Ending => s.due <= s.stampedAt + b.gap + HALF_LEASE
    case Finished => true
    case _ => s.stoppedAt <= s.stampedAt + b.gap + HALF_LEASE + b.late
  }

  predicate Spared(b: Bounds, c: Config, s: State) {
    && Untouched(c, s)
    && (s.file.Some? ==> OnSchedule(b, c, s))
    && (s.phase.Stopping? && s.beat.Stamped? ==> s.stoppedAt - s.beat.at <= b.gap)
  }

  lemma StampIsFresh(b: Bounds, c: Config, s: State)
    requires Tolerates(b) && Timely(b, c, s) && Spared(b, c, s) && s.file.Some?
    ensures !IsZombie(s.file.value, s.now, s.alive)
  {}

  lemma WorkerIsSpared(b: Bounds, c: Config, s: State, a: Action)
    requires Timely(b, c, s) && Spared(b, c, s) && IsWorkerAction(a) && Step(c, s, a).Some?
    ensures Spared(b, c, Step(c, s, a).value)
  {
    StepKeepsInv(c, s, a);
    match a
    case SaveStarted =>
    case Stop =>
    case SaveTerminal(_) =>
    case _ =>
  }

  lemma BeatIsSpared(b: Bounds, c: Config, s: State, a: Action)
    requires Timely(b, c, s) && Spared(b, c, s) && IsBeatAction(a) && Step(c, s, a).Some?
    ensures Spared(b, c, Step(c, s, a).value)
  {
    StepKeepsInv(c, s, a);
    match a
    case BeatRead =>
    case BeatSave =>
    case _ =>
  }

  lemma OutsideIsSpared(b: Bounds, c: Config, s: State, a: Action)
    requires Tolerates(b) && Timely(b, c, s) && Spared(b, c, s) && !IsWorkerAction(a) && !IsBeatAction(a) && !a.Crash?
    requires Step(c, s, a).Some?
    ensures Spared(b, c, Step(c, s, a).value)
  {
    StepKeepsInv(c, s, a);
    if s.file.Some? {
      StampIsFresh(b, c, s);
    }
  }

  /** Within tolerated bounds, no sweep in any process ever decides on the live job. */
  lemma {:induction false} LeaseSafety(b: Bounds, c: Config, s: State, acts: seq<Action>)
    requires Tolerates(b) && Spared(b, c, s) && TimelyRun(b, c, s, acts)
    ensures Exec(c, s, acts).Some? && Spared(b, c, Exec(c, s, acts).value)
    decreases |acts|
  {
    if acts != [] {
      if IsWorkerAction(acts[0]) {
        WorkerIsSpared(b, c, s, acts[0]);
      } else if IsBeatAction(acts[0]) {
        BeatIsSpared(b, c, s, acts[0]);
      } else {
        OutsideIsSpared(b, c, s, acts[0]);
      }
      LeaseSafety(b, c, Step(c, s, acts[0]).value, acts[1..]);
    }
  }

  /** From submission on, the record of such a job is its own: completed only by its own terminal write. */
  lemma OnTimeJobIsNeverReaped(b: Bounds, c: Config, acts: seq<Action>)
    requires Tolerates(b) && TimelyRun(b, c, Init(c), acts)
    ensures Exec(c, Init(c), acts).Some?
    ensures var s := Exec(c, Init(c), acts).value;
      && s.pending == map[]
      && (s.file.Some? ==> (s.file.value.completed <==> s.phase.Finished?) && (s.phase.Finished? ==> s.terminals == [s.file.value]))
  {
    InitHolds(c);
    LeaseSafety(b, c, Init(c), acts);
  }

  lemma {:induction false} Extend(b: Bounds, c: Config, s: State, acts: seq<Action>, end: State, a: Action, next: State)
    requires TimelyRun(b, c, s, acts) && Exec(c, s, acts) == Some(end)
    requires !a.Crash? && Step(c, end, a) == Some(next) && Timely(b, c, next)
    ensures TimelyRun(b, c, s, acts + [a]) && Exec(c, s, acts + [a]) == Some(next)
    decreases |acts|
  {
    if acts == [] {
      assert (acts + [a])[0] == a && (acts + [a])[1..] == [];
    } else {
      assert (acts + [a])[1..] == acts[1..] + [a];
      Extend(b, c, Step(c, s, acts[0]).value, acts[1..], end, a, next);
    }
  }

  lemma {:induction false} EndIsTimely(b: Bounds, c: Config, s: State, acts: seq<Action>)
    requires TimelyRun(b, c, s, acts)
    ensures Exec(c, s, acts).Some? && Timely(b, c, Exec(c, s, acts).value)
    decreases |acts|
  {
    if acts != [] {
      EndIsTimely(b, c, Step(c, s, acts[0]).value, acts[1..]);
    }
  }

  /** A worker that takes its start stamp after the full queue wait, and is slow to begin. */
  lemma SlowStart(b: Bounds, c: Config, wait: nat) returns (acts: seq<Action>, s: State)
    requires wait <= b.queue
    ensures TimelyRun(b, c, Init(c), acts) && Exec(c, Init(c), acts) == Some(s)
    ensures s == Init(c).(phase := Begun, startedAt := c.submittedAt + wait, now := c.submittedAt + wait + b.gap)
  {
    var s0 := Init(c);
    var s1 := s0.(now := c.submittedAt + wait);
    var s2 := s1.(phase := Begun, startedAt := s1.now);
    s := s2.(now := s2.now + b.gap);
    Extend(b, c, s0, [], s0, Tick(wait), s1);
    Extend(b, c, s0, [] + [Tick(wait)], s1, Begin, s2);
    acts := [] + [Tick(wait)] + [Begin] + [Tick(b.gap)];
    Extend(b, c, s0, [] + [Tick(wait)] + [Begin], s2, Tick(b.gap), s);
  }

  /** The same worker once it runs, with its record stamped before the slow beginning. */
  lemma SlowlyRunning(b: Bounds, c: Config) returns (acts: seq<Action>, s: State)
    ensures TimelyRun(b, c, Init(c), acts) && Exec(c, Init(c), acts) == Some(s)
    ensures s.phase.Running? && s.beat.Waiting? && !s.crashed && s.pending == map[] && s.due == s.now + HALF_LEASE
    ensures s.file.Some? && !s.file.value.completed && s.now - s.stampedAt == b.gap
  {
    var s1;
    acts, s1 := SlowStart(b, c, 0);
    var s2 := s1.(phase := Loaded, snapshot := s1.file);
    s := Step(c, s2, SaveStarted).value;
    Extend(b, c, Init(c), acts, s1, Load, s2);
    Extend(b, c, Init(c), acts + [Load], s2, SaveStarted, s);
    acts := acts + [Load] + [SaveStarted];
  }

  /** A worker that is slow to begin, and whose first beat is as late as it may be. */
  lemma LateBeat(b: Bounds, c: Config) returns (acts: seq<Action>, s: State)
    ensures TimelyRun(b, c, Init(c), acts) && Exec(c, Init(c), acts) == Some(s)
    ensures s.phase.Running? && s.beat.Waiting? && !s.crashed && s.pending == map[] && s.now == s.due + b.late
    ensures s.file.Some? && !s.file.value.completed && s.now - s.stampedAt == HALF_LEASE + b.gap + b.late && Inv(c, s)
  {
    var s1;
    acts, s1 := SlowlyRunning(b, c);
    s := s1.(now := s1.now + HALF_LEASE + b.late);
    Extend(b, c, Init(c), acts, s1, Tick(HALF_LEASE + b.late), s);
    acts := acts + [Tick(HALF_LEASE + b.late)];
    InitHolds(c);
    RunKeepsInv(c, Init(c), acts);
  }

  /** The same worker, told to end just before that beat and slow to write its result. */
  lemma LateEnd(b: Bounds, c: Config) returns (acts: seq<Action>, s: State)
    ensures TimelyRun(b, c, Init(c), acts) && Exec(c, Init(c), acts) == Some(s)
    ensures s.phase.Stopping? && !s.crashed && s.pending == map[]
    ensures s.file.Some? && !s.file.value.completed && Inv(c, s)
    ensures s.now - s.stampedAt == HALF_LEASE + b.gap + b.late + b.tail
  {
    var s1, s2, s3;
    acts, s1 := LateBeat(b, c);
    s2 := Step(c, s1, Raise("")).value;
    s3 := s2.(phase := Stopping, stoppedAt := s2.now);
    s := s3.(now := s3.now + b.tail);
    Extend(b, c, Init(c), acts, s1, Raise(""), s2);
    Extend(b, c, Init(c), acts + [Raise("")], s2, Stop, s3);
    Extend(b, c, Init(c), acts + [Raise("")] + [Stop], s3, Tick(b.tail), s);
    acts := acts + [Raise("")] + [Stop] + [Tick(b.tail)];
    InitHolds(c);
    RunKeepsInv(c, Init(c), acts);
  }

  /** One sweep decides on a live job whose stamp is overdue. */
  lemma SweepDecides(b: Bounds, c: Config, acts: seq<Action>, s: State) returns (more: seq<Action>, t: State)
    requires TimelyRun(b, c, Init(c), acts) && Exec(c, Init(c), acts) == Some(s) && Inv(c, s)
    requires s.pending == map[] && s.file.Some? && !s.file.value.completed && s.now - s.stampedAt > JOB_HEARTBEAT_LEASE_SEC
    requires !s.phase.Finished?
    ensures TimelyRun(b, c, Init(c), more) && Exec(c, Init(c), more) == Some(t)
    ensures t == s.(pending := map[0 := ZombieRecord(s.file.value, s.now, s.alive)]) && t.pending != map[]
  {
    t := s.(pending := map[0 := ZombieRecord(s.file.value, s.now, s.alive)]);
    EndIsTimely(b, c, Init(c), acts);
    Extend(b, c, Init(c), acts, s, SweepRead(0), t);
    assert 0 in t.pending;
    more := acts + [SweepRead(0)];
  }

  /** Every timely run of a live job is spared by all sweeps exactly when the bounds are tolerated: queue wait and start
      within one lease, and start or save gap, lateness of a beat and tail within half a lease together. */
  lemma SparedExactlyWhenTolerated(b: Bounds, c: Config)
    ensures Tolerates(b) <==>
      forall acts | TimelyRun(b, c, Init(c), acts) :: Exec(c, Init(c), acts).Some? && Exec(c, Init(c), acts).value.pending == map[]
  {
    if Tolerates(b) {
      forall acts | TimelyRun(b, c, Init(c), acts)
        ensures Exec(c, Init(c), acts).Some? && Exec(c, Init(c), acts).value.pending == map[]
      {
        OnTimeJobIsNeverReaped(b, c, acts);
      }
    } else {
      var acts, s;
      if b.queue + b.gap > JOB_HEARTBEAT_LEASE_SEC {
        acts, s := OverdueBeforeStop(b, c);
      } else {
        acts, s := LateEnd(b, c);
      }
      var more, t := SweepDecides(b, c, acts, s);
    }
  }

  predicate IsUnstopped(s: State) { IsUnstarted(s) || s.phase.Running? || s.phase.Ending? }

  lemma {:induction false} UnstoppedRunHasNoTail(b: Bounds, c: Config, s: State, acts: seq<Action>)
    requires TimelyRun(b, c, s, acts) && Exec(c, s, acts).Some? && IsUnstopped(Exec(c, s, acts).value)
    ensures TimelyRun(b.(tail := 0), c, s, acts) && IsUnstopped(s)
    decreases |acts|
  {
    if acts != [] {
      UnstoppedRunHasNoTail(b, c, Step(c, s, acts[0]).value, acts[1..]);
    }
  }

  /** Until the heartbeat is told to stop, the slack is half a lease for the gap after a stamp and the lateness of a beat
      together, however long the tail. */
  lemma RunningJobIsSparedExactlyWhenTolerated(b: Bounds, c: Config)
    ensures Tolerates(b.(tail := 0)) <==>
      forall acts | TimelyRun(b, c, Init(c), acts) ::
        Exec(c, Init(c), acts).Some? && (IsUnstopped(Exec(c, Init(c), acts).value) ==> Exec(c, Init(c), acts).value.pending == map[])
  {
    if Tolerates(b.(tail := 0)) {
      forall acts | TimelyRun(b, c, Init(c), acts)
        ensures Exec(c, Init(c), acts).Some?
        ensures IsUnstopped(Exec(c, Init(c), acts).value) ==> Exec(c, Init(c), acts).value.pending == map[]
      {
        EndIsTimely(b, c, Init(c), acts);
        if IsUnstopped(Exec(c, Init(c), acts).value) {
          UnstoppedRunHasNoTail(b, c, Init(c), acts);
          OnTimeJobIsNeverReaped(b.(tail := 0), c, acts);
        }
      }
    } else {
      var acts, s := OverdueBeforeStop(b, c);
      var more, t := SweepDecides(b, c, acts, s);
    }
  }

  lemma OverdueBeforeStop(b: Bounds, c: Config) returns (acts: seq<Action>, s: State)
    requires !Tolerates(b.(tail := 0))
    ensures TimelyRun(b, c, Init(c), acts) && Exec(c, Init(c), acts) == Some(s) && Inv(c, s) && IsUnstopped(s)
    ensures s.pending == map[] && s.file.Some? && !s.file.value.completed && s.now - s.stampedAt > JOB_HEARTBEAT_LEASE_SEC
  {
    if b.queue + b.gap > JOB_HEARTBEAT_LEASE_SEC {
      acts, s := SlowStart(b, c, b.queue);
      InitHolds(c);
      RunKeepsInv(c, Init(c), acts);
    } else {
      acts, s := LateBeat(b, c);
    }
  }

  /** Ten seconds between start stamp and first wait use up what a beat 85 seconds late needs: the running job is failed. */
  lemma SlowStartAndLateBeatAreReaped(c: Config)
    ensures var b := Bounds(0, 10, 85, 0);
      exists acts :: TimelyRun(b, c, Init(c), acts) && Exec(c, Init(c), acts).Some?
        && Exec(c, Init(c), acts).value.phase.Running? && !Exec(c, Init(c), acts).value.crashed
        && Exec(c, Init(c), acts).value.file.Some?
        && Exec(c, Init(c), acts).value.file.value.error == Some(HeartbeatExpired)
  {
    var b := Bounds(0, 10, 85, 0);
    var acts, s := LateBeat(b, c);
    var more, t := SweepDecides(b, c, acts, s);
    EndIsTimely(b, c, Init(c), more);
    Extend(b, c, Init(c), more, t, SweepWrite(0), t.(file := Some(t.pending[0]), pending := t.pending - {0}));
  }

  lemma ExecCons(c: Config, s: State, a: Action, rest: seq<Action>)
    requires Step(c, s, a).Some?
    ensures Exec(c, s, [a] + rest) == Exec(c, Step(c, s, a).value, rest)
  {
    assert ([a] + rest)[1..] == rest;
  }

  lemma {:induction false} ExecConcat(c: Config, s: State, front: seq<Action>, back: seq<Action>)
    requires Exec(c, s, front).Some?
    ensures Exec(c, s, front + back) == Exec(c, Exec(c, s, front).value, back)
    decreases |front|
  {
    if front == [] {
      assert front + back == back;
    } else {
      assert (front + back)[1..] == front[1..] + back;
      ExecConcat(c, Step(c, s, front[0]).value, front[1..], back);
    }
  }

  /** Nothing beats while a job is queued: past one lease in the queue, any sweep fails the live job,
      and the worker that later starts it makes the failed record incomplete again. */
  lemma OverdueQueuedJobIsReapedThenReopened(c: Config, wait: nat)
    requires wait > JOB_HEARTBEAT_LEASE_SEC
    ensures Exec(c, Init(c), [Tick(wait), SweepRead(0), SweepWrite(0)]).Some?
    ensures var s := Exec(c, Init(c), [Tick(wait), SweepRead(0), SweepWrite(0)]).value;
      && s.phase.Queued? && !s.crashed && c.job.owner in s.alive
      && s.file.Some? && s.file.value.completed && s.file.value.error.Some?
      && Exec(c, s, [Begin, Load, SaveStarted]).Some?
      && var t := Exec(c, s, [Begin, Load, SaveStarted]).value;
         t.phase.Running? && t.file.Some? && !t.file.value.completed
  {
    var s1 := Init(c).(now := c.submittedAt + wait);
    Three(c, Init(c), Tick(wait), SweepRead(0), SweepWrite(0));
    var s := Exec(c, Init(c), [Tick(wait), SweepRead(0), SweepWrite(0)]).value;
    Three(c, s, Begin, Load, SaveStarted);
  }

  /** Only start and beat can reopen a record, never after the terminal write, and what they reopen is a sweep's verdict. */
  lemma OnlyStartOrBeatReopens(c: Config, acts: seq<Action>, a: Action)
    requires Exec(c, Init(c), acts).Some?
    requires var s := Exec(c, Init(c), acts).value;
      s.file.Some? && s.file.value.completed && Step(c, s, a).Some?
    ensures var s := Exec(c, Init(c), acts).value; var t := Step(c, s, a).value;
      t.file.Some? && !t.file.value.completed ==>
        (a.SaveStarted? || a.BeatSave?) && !s.phase.Finished? && s.file.value.error.Some?
  {
    InitHolds(c);
    RunKeepsInv(c, Init(c), acts);
    var s := Exec(c, Init(c), acts).value;
    StepKeepsInv(c, s, a);
    if s.phase.Finished? {
      FinishedStep(c, s, a);
    }
  }

  /** A finished job's own terminal record stays as written when no sweep decided before it and nobody deletes it. */
  lemma {:induction false} ResultIsSafeWithoutPendingSweep(c: Config, s: State, acts: seq<Action>)
    requires Inv(c, s) && s.phase.Finished? && s.file.Some? && s.terminals == [s.file.value]
    requires s.pending == map[] && Delete !in acts
    requires Exec(c, s, acts).Some?
    ensures Exec(c, s, acts).value.file == s.file
    decreases |acts|
  {
    if acts != [] {
      StepKeepsInv(c, s, acts[0]);
      FinishedStep(c, s, acts[0]);
      assert acts[0] in acts;
      ResultIsSafeWithoutPendingSweep(c, Step(c, s, acts[0]).value, acts[1..]);
    }
  }

  lemma PendingSweepReplaces(c: Config, s: State, k: int)
    requires Inv(c, s) && s.phase.Finished? && k in s.pending && s.file == Some(s.terminals[0])
    ensures Delete !in [SweepWrite(k)] && Exec(c, s, [SweepWrite(k)]).Some?
    ensures Exec(c, s, [SweepWrite(k)]).value.file != s.file
  {
    assert [SweepWrite(k)][1..] == [];
    assert Exec(c, s, [SweepWrite(k)]) == Step(c, s, SweepWrite(k));
    assert IsVerdict(s.pending[k].error) && !IsVerdict(s.terminals[0].error);
  }

  lemma SomeElement<T>(s: set<T>) returns (x: T)
    requires s != {}
    ensures x in s
  {
    x :| x in s;
  }

  /** In every reachable state in which a job's own terminal record stands, some continuation in which nobody deletes it
      replaces it exactly when a sweep has decided and not yet written. */
  lemma ResultCanChangeExactlyWhenASweepIsPending(c: Config, before: seq<Action>)
    requires Exec(c, Init(c), before).Some?
    requires var s := Exec(c, Init(c), before).value;
      s.phase.Finished? && s.file.Some? && s.terminals == [s.file.value]
    ensures var s := Exec(c, Init(c), before).value;
      s.pending.Keys != {} <==>
        exists acts :: Delete !in acts && Exec(c, s, acts).Some? && Exec(c, s, acts).value.file != s.file
  {
    var s := Exec(c, Init(c), before).value;
    InitHolds(c);
    RunKeepsInv(c, Init(c), before);
    if s.pending.Keys == {} {
      assert s.pending == map[];
      forall acts | Delete !in acts && Exec(c, s, acts).Some?
        ensures Exec(c, s, acts).value.file == s.file
      {
        ResultIsSafeWithoutPendingSweep(c, s, acts);
      }
    } else {
      var k := SomeElement(s.pending.Keys);
      PendingSweepReplaces(c, s, k);
    }
  }

  // A job overdue in the queue is swept up to the sweep's decision, and then started.
  function OverdueStart(wait: nat): seq<Action> {
    [Tick(wait), SweepRead(0)] + [Begin, Load, SaveStarted]
  }

  function Succeeding(preview: Option<string>): seq<Action> {
    [Return(Succeeded(preview)), Stop] + [BeatExit, Join]
  }

  /** A sweep that decided while the job was still queued writes its verdict over a later success. */
  lemma PendingSweepOverwritesSuccess(c: Config, wait: nat, preview: Option<string>, duration: int)
    requires wait > JOB_HEARTBEAT_LEASE_SEC
    ensures var acts := OverdueStart(wait) + (Succeeding(preview) + ([SendReport] + [SaveTerminal(duration), SweepWrite(0)]));
      && Exec(c, Init(c), acts).Some?
      && var s := Exec(c, Init(c), acts).value;
         && s.phase.Finished? && !s.crashed && |s.terminals| == 1 && s.terminals[0].error.None?
         && s.file.Some? && s.file.value.error.Some?
  {
    var back := [SendReport] + [SaveTerminal(duration), SweepWrite(0)];
    var s := StartedWithPendingSweep(c, wait);
    var t := FinishingSuccess(c, s, preview);
    ExecConcat(c, Init(c), OverdueStart(wait), Succeeding(preview) + back);
    ExecConcat(c, s, Succeeding(preview), back);
    ExecCons(c, t, SendReport, [SaveTerminal(duration), SweepWrite(0)]);
    Two(c, Step(c, t, SendReport).value, SaveTerminal(duration), SweepWrite(0));
  }

  lemma StartedWithPendingSweep(c: Config, wait: nat) returns (s: State)
    requires wait > JOB_HEARTBEAT_LEASE_SEC
    ensures Exec(c, Init(c), OverdueStart(wait)) == Some(s)
    ensures s.phase.Running? && s.beat.Waiting? && !s.crashed && 0 in s.pending && s.pending[0].error.Some? && s.terminals == []
  {
    Two(c, Init(c), Tick(wait), SweepRead(0));
    var overdue := Exec(c, Init(c), [Tick(wait), SweepRead(0)]).value;
    ExecConcat(c, Init(c), [Tick(wait), SweepRead(0)], [Begin, Load, SaveStarted]);
    Three(c, overdue, Begin, Load, SaveStarted);
    s := Exec(c, overdue, [Begin, Load, SaveStarted]).value;
    assert s.pending == overdue.pending && overdue.terminals == [];
  }

  lemma FinishingSuccess(c: Config, s: State, preview: Option<string>) returns (t: State)
    requires s.phase.Running? && s.beat.Waiting? && !s.crashed
    ensures Exec(c, s, Succeeding(preview)) == Some(t)
    ensures t == s.(phase := Joined, beat := Dead, outcome := Some(Returned(Succeeded(preview))), stoppedAt := s.now)
  {
    Two(c, s, Return(Succeeded(preview)), Stop);
    var stopping := Exec(c, s, [Return(Succeeded(preview)), Stop]).value;
    ExecConcat(c, s, [Return(Succeeded(preview)), Stop], [BeatExit, Join]);
    Two(c, stopping, BeatExit, Join);
    t := stopping.(phase := Joined, beat := Dead);
  }

  // ----- What the threads get done -----

  /** Reachable states, whoever has stepped. */
  ghost predicate IsReachable(c: Config, s: State) {
    exists acts :: Exec(c, Init(c), acts) == Some(s)
  }

  lemma ReachableHolds(c: Config, s: State)
    requires IsReachable(c, s)
    ensures Inv(c, s)
  {
    var acts :| Exec(c, Init(c), acts) == Some(s);
    InitHolds(c);
    RunKeepsInv(c, Init(c), acts);
  }

  const BEAT := [BeatWake, BeatRead, BeatStamp, BeatSave]

  lemma StampingBeat(c: Config, s: State, rec: JobRecord)
    requires !s.crashed && s.beat.Waiting? && s.due <= s.now && !s.phase.Stopping? && s.file == Some(rec) && !rec.completed
    ensures Exec(c, s, BEAT) ==
      Some(s.(file := Some(BeatRecord(rec, s.now)), stampedAt := s.now, due := s.now + HALF_LEASE))
  {
    var s1 := s.(beat := Awake);
    var s2 := s.(beat := Holding(rec));
    var s3 := s.(beat := Stamped(rec, s.now));
    var s4 := s.(file := Some(BeatRecord(rec, s.now)), stampedAt := s.now, due := s.now + HALF_LEASE);
    assert Step(c, s, BeatWake) == Some(s1) && Step(c, s1, BeatRead) == Some(s2);
    assert Step(c, s2, BeatStamp) == Some(s3);
    assert Step(c, s3, BeatSave) == Some(s4);
    Two(c, s2, BeatStamp, BeatSave);
    ExecCons(c, s1, BeatRead, [BeatStamp, BeatSave]);
    ExecCons(c, s, BeatWake, [BeatRead] + [BeatStamp, BeatSave]);
    assert BEAT == [BeatWake] + ([BeatRead] + [BeatStamp, BeatSave]);
  }

  lemma IdleBeat(c: Config, s: State)
    requires !s.crashed && s.beat.Waiting? && s.due <= s.now && !s.phase.Stopping? && (s.file.Some? ==> s.file.value.completed)
    ensures Exec(c, s, BEAT[..2]) == Some(s.(due := s.now + HALF_LEASE))
  {
    Two(c, s, BeatWake, BeatRead);
    assert BEAT[..2] == [BeatWake, BeatRead];
  }

  /** A waiting heartbeat wakes exactly when its wait has run out and it has not been told to stop. Undisturbed, it then
      stamps an incomplete record with the present and nothing else, leaves any other alone, and waits for half a lease. */
  lemma OneBeatStampsAndWaits(c: Config, s: State)
    requires IsReachable(c, s) && !s.crashed && s.beat.Waiting?
    ensures Step(c, s, BeatWake).Some? <==> s.due <= s.now && !s.phase.Stopping?
    ensures Step(c, s, BeatExit).Some? <==> s.phase.Stopping?
    ensures s.due <= s.now && !s.phase.Stopping? ==>
      if s.file.Some? && !s.file.value.completed then
        Exec(c, s, BEAT) ==
        Some(s.(file := Some(s.file.value.(heartbeatAt := At(s.now))), stampedAt := s.now, due := s.now + HALF_LEASE))
      else
        Exec(c, s, BEAT[..2]) == Some(s.(due := s.now + HALF_LEASE))
  {
    ReachableHolds(c, s);
    if s.due <= s.now && !s.phase.Stopping? {
      if s.file.Some? && !s.file.value.completed {
        StampingBeat(c, s, s.file.value);
        BeatChangesTheStampOnly(s.file.value, s.now);
      } else {
        IdleBeat(c, s);
      }
    }
  }

  /** What is left to do before the job is finished: the worker's part, then the heartbeat's. */
  function WorkLeft(p: Phase): nat {
    match p
    case Queued => 8
    case Begun => 7
    case Loaded => 6
    case Running => 5
    case Ending => 4
    case Stopping => 3
    case Joined => 2
    case Reported => 1
    case Finished => 0
  }

  function BeatLeft(b: Beat): nat {
    match b
    case Awake => 4
    case Holding(_) => 3
    case Stamped(_, _) => 2
    case Waiting => 1
    case _ => 0
  }

  function NextAction(s: State): Action {
    match s.phase
    case Queued => Begin
    case Begun => Load
    case Loaded => SaveStarted
    case Running => Return(Succeeded(None))
    case Ending => Stop
    case Stopping =>
      if s.beat.Dead? then Join else if s.beat.Awake? then BeatRead else if s.beat.Holding? then BeatStamp
      else if s.beat.Stamped? then BeatSave else BeatExit
    case Joined => SendReport
    case _ => SaveTerminal(0)
  }

  lemma NextActionIsEnabled(c: Config, s: State)
    requires Inv(c, s) && !s.crashed && !s.phase.Finished?
    ensures IsWorkerAction(NextAction(s)) || IsBeatAction(NextAction(s))
    ensures Step(c, s, NextAction(s)).Some?
    ensures var t := Step(c, s, NextAction(s)).value;
      && !t.crashed && WorkLeft(t.phase) <= WorkLeft(s.phase)
      && (WorkLeft(t.phase) < WorkLeft(s.phase) || BeatLeft(t.beat) < BeatLeft(s.beat))
  {}

  predicate Finishes(c: Config, s: State, more: seq<Action>) {
    && (forall a | a in more :: IsWorkerAction(a) || IsBeatAction(a))
    && Exec(c, s, more).Some? && Exec(c, s, more).value.phase.Finished?
  }

  lemma FinishesOneEarlier(c: Config, s: State, a: Action, rest: seq<Action>)
    requires (IsWorkerAction(a) || IsBeatAction(a)) && Step(c, s, a).Some? && Finishes(c, Step(c, s, a).value, rest)
    ensures Finishes(c, s, [a] + rest)
  {
    ExecCons(c, s, a, rest);
  }

  lemma {:induction false} ThreadsCanFinish(c: Config, s: State)
    requires Inv(c, s) && !s.crashed
    ensures exists more :: Finishes(c, s, more)
    decreases WorkLeft(s.phase), BeatLeft(s.beat)
  {
    if s.phase.Finished? {
      assert Finishes(c, s, []);
    } else {
      var a := NextAction(s);
      NextActionIsEnabled(c, s);
      StepKeepsInv(c, s, a);
      ThreadsCanFinish(c, Step(c, s, a).value);
      var rest :| Finishes(c, Step(c, s, a).value, rest);
      FinishesOneEarlier(c, s, a, rest);
    }
  }

  /** No interleaving blocks a job: from every reachable state its own two threads, alone, can finish it. */
  lemma EveryJobCanFinish(c: Config, s: State)
    requires IsReachable(c, s) && !s.crashed
    ensures exists more :: Finishes(c, s, more)
  {
    ReachableHolds(c, s);
    ThreadsCanFinish(c, s);
  }

  /** A crash stops both threads and leaves the record. The next sweep decides on an incomplete one at once; but when the
      pid has been taken by another process, only once the last stamp is past the lease. */
  lemma RecycledPidHidesTheCrash(c: Config, s: State, k: int)
    requires IsReachable(c, s) && !s.crashed && s.file.Some? && !s.file.value.completed && k !in s.pending
    ensures Step(c, s, Recycle).None?
    ensures var t := Step(c, s, Crash);
      && t.Some? && t.value.file == s.file
      && (forall a | IsWorkerAction(a) || IsBeatAction(a) :: Step(c, t.value, a).None?)
      && Step(c, t.value, SweepRead(k)).Some? && k in Step(c, t.value, SweepRead(k)).value.pending
    ensures var u := Exec(c, s, [Crash, Recycle, SweepRead(k)]);
      u.Some? && (k in u.value.pending <==> s.now - s.stampedAt > JOB_HEARTBEAT_LEASE_SEC)
  {
    ReachableHolds(c, s);
    var t := s.(crashed := true, alive := s.alive - {c.job.owner});
    var u := s.(crashed := true);
    assert Step(c, s, Crash) == Some(t);
    assert t.alive + {c.job.owner} == s.alive;
    assert Step(c, t, Recycle) == Some(u);
    Two(c, t, Recycle, SweepRead(k));
    ExecCons(c, s, Crash, [Recycle, SweepRead(k)]);
    assert [Crash] + [Recycle, SweepRead(k)] == [Crash, Recycle, SweepRead(k)];
  }
}
