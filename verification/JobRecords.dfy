// The persisted job record, and every way the job feature rewrites one:
// submit, start, beat, terminal save and the zombie sweep.
module JobRecords {
  import opened Common

  // Wall-clock stamps as they come back from a JSON file: absent, not a parsable date, or a time in seconds.
  datatype Stamp = Missing | Corrupt | At(time: int)

  type Pid = int

  // The event names the job feature writes, and any other name a file may hold.
  datatype JobEvent = DispatchAcknowledged | RunFailed | GenerationFinished | OtherEvent(name: string)

  // Why a record is in error: the two verdicts of the sweep, or what the run reported.
  datatype JobError = HeartbeatExpired | ProcessExited | RunError(message: string)

  datatype JobRecord = JobRecord(
    jobId: string,
    createdAt: Stamp,
    latestEvent: Option<JobEvent>,
    completed: bool,
    startedAt: Stamp,
    completedAt: Stamp,
    duration: Option<int>,
    inputFile: Option<string>,
    attachmentFile: Option<string>,
    outputFile: Option<string>,
    ownerPid: Option<Pid>,
    heartbeatAt: Stamp,
    error: Option<JobError>,
    resultPreview: Option<string>)

  const JOB_HEARTBEAT_LEASE_SEC := 180
  const HALF_LEASE := 90

  // What a submission fixes once and for all.
  datatype Job = Job(
    id: string,
    inputFile: string,
    attachmentFile: Option<string>,
    outputFile: Option<string>,
    owner: Pid)

  function SubmitRecord(job: Job, now: int): JobRecord {
    JobRecord(job.id, At(now), Some(DispatchAcknowledged), false, Missing, Missing, None,
              Some(job.inputFile), job.attachmentFile, job.outputFile, Some(job.owner), At(now), None, None)
  }

  /** The in-progress record; an empty latest event falls back to the acknowledgment. */
  function StartedRecord(rec: JobRecord, startedAt: int, attachment: Option<string>): JobRecord {
    var event := if rec.latestEvent.Some? && rec.latestEvent.value != OtherEvent("") then rec.latestEvent
                 else Some(DispatchAcknowledged);
    JobRecord(rec.jobId, rec.createdAt, event, false, At(startedAt), Missing, None,
              rec.inputFile, if attachment.Some? then attachment else rec.attachmentFile, rec.outputFile,
              rec.ownerPid, At(startedAt), None, None)
  }

  /** A heartbeat restamps the record and always writes it as incomplete. */
  function BeatRecord(rec: JobRecord, now: int): JobRecord {
    JobRecord(rec.jobId, rec.createdAt, rec.latestEvent, false, rec.startedAt, Missing, None,
              rec.inputFile, rec.attachmentFile, rec.outputFile, rec.ownerPid, At(now), None, None)
  }

  datatype Terminal = Failed(error: string) | Succeeded(preview: Option<string>)

  /** The terminal record; the snapshot taken at start supplies creation time and owner when there was one. */
  function TerminalRecord(job: Job, snapshot: Option<JobRecord>, startedAt: int, now: int, duration: int, end: Terminal)
    : JobRecord
  {
    JobRecord(job.id,
              if snapshot.Some? then snapshot.value.createdAt else At(startedAt),
              Some(if end.Failed? then RunFailed else GenerationFinished),
              true, At(startedAt), At(now), Some(duration),
              Some(job.inputFile), job.attachmentFile, job.outputFile,
              if snapshot.Some? then snapshot.value.ownerPid else None,
              At(now),
              if end.Failed? then Some(RunError(end.error)) else None,
              if end.Succeeded? then end.preview else None)
  }

  /** A stamp is stale strictly after one lease; a missing one is measured from creation, a corrupt one is stale. */
  predicate HeartbeatIsStale(heartbeatAt: Stamp, createdAt: Stamp, now: int) {
    match heartbeatAt
    case At(t) => now - t > JOB_HEARTBEAT_LEASE_SEC
    case Corrupt => true
    case Missing => !createdAt.At? || now - createdAt.time > JOB_HEARTBEAT_LEASE_SEC
  }

  /** A stamp holds for one lease, to the second; without a readable one the creation time holds instead when there was no
      stamp at all, and nothing does when there was a corrupt one. */
  lemma StampsHoldForOneLease(t: int, createdAt: Stamp, now: int)
    ensures HeartbeatIsStale(At(t), createdAt, now) <==> t + JOB_HEARTBEAT_LEASE_SEC < now
    ensures HeartbeatIsStale(Missing, At(t), now) <==> HeartbeatIsStale(At(t), createdAt, now)
    ensures !createdAt.At? ==> HeartbeatIsStale(Missing, createdAt, now)
    ensures HeartbeatIsStale(Corrupt, createdAt, now)
  {}

  /** Starting a job takes its record over, but for the start stamp, a given attachment and an empty event, and clears
      whatever an earlier end has left. */
  lemma StartTakesTheRecordOver(rec: JobRecord, startedAt: int, attachment: Option<string>)
    ensures var r := StartedRecord(rec, startedAt, attachment);
      && r.startedAt == r.heartbeatAt == At(startedAt)
      && (attachment.Some? ==> r.attachmentFile == attachment) && (attachment.None? ==> r.attachmentFile == rec.attachmentFile)
      && (rec.latestEvent.None? || rec.latestEvent == Some(OtherEvent("")) ==> r.latestEvent == Some(DispatchAcknowledged))
      && (rec.latestEvent.Some? && rec.latestEvent != Some(OtherEvent("")) ==> r.latestEvent == rec.latestEvent)
      && !r.completed && r.completedAt == Missing && r.duration.None? && r.error.None? && r.resultPreview.None?
      && r == rec.(startedAt := r.startedAt, heartbeatAt := r.heartbeatAt, attachmentFile := r.attachmentFile,
                   latestEvent := r.latestEvent, completed := false, completedAt := Missing, duration := None,
                   error := None, resultPreview := None)
  {}

  /** A beat restamps a record that is in progress, and changes nothing else. */
  lemma BeatChangesTheStampOnly(rec: JobRecord, now: int)
    requires !rec.completed && rec.completedAt == Missing && rec.duration.None? && rec.error.None? && rec.resultPreview.None?
    ensures BeatRecord(rec, now) == rec.(heartbeatAt := At(now))
  {}

  /** The sweep's verdict on one record, given which process ids answer. */
  predicate IsZombie(rec: JobRecord, now: int, alive: set<Pid>) {
    && !rec.completed
    && rec.ownerPid.Some?
    && (rec.ownerPid.value !in alive || HeartbeatIsStale(rec.heartbeatAt, rec.createdAt, now))
  }

  /** What the sweep writes over a zombie. */
  function ZombieRecord(rec: JobRecord, now: int, alive: set<Pid>): JobRecord
    requires rec.ownerPid.Some?
  {
    rec.(completed := true, completedAt := At(now),
         error := Some(if rec.ownerPid.value in alive then HeartbeatExpired else ProcessExited))
  }

  function SweepRecord(rec: JobRecord, now: int, alive: set<Pid>): JobRecord {
    if IsZombie(rec, now, alive) then ZombieRecord(rec, now, alive) else rec
  }
}
