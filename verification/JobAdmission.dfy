// Admission of background jobs: a bounded semaphore and an in-flight deque, which are returned
// and popped by every finishing job and every guard rejection, but entered by file jobs only.
module JobAdmission {
  import opened Common

  // The semaphore's free permits and the length of the deque, whose elements carry no information.
  datatype Slots = Slots(free: nat, inflight: nat)

  // The three things the orchestrator does to them; its methods and the steps of the protocol below both do exactly these.

  function Taken(s: Slots): Option<Slots> {
    if s.free > 0 then Some(s.(free := s.free - 1)) else None
  }

  function Entered(s: Slots): Slots { s.(inflight := s.inflight + 1) }

  function Released(s: Slots): Slots {
    Slots(s.free + 1, if s.inflight > 0 then s.inflight - 1 else 0)
  }

  datatype Admission = Admitted | QueueFull(depth: nat)

  class JobQueue {
    const maxPendingJobs: int
    var free: nat
    var inflight: seq<int>

    ghost function View(): Slots
      reads this
    {
      Slots(free, |inflight|)
    }

    /** A configured capacity below one still admits one job. */
    constructor (maxPendingJobs: int)
      ensures this.maxPendingJobs == maxPendingJobs
      ensures View() == Slots(Capacity(maxPendingJobs), 0)
    {
      this.maxPendingJobs := maxPendingJobs;
      free := if maxPendingJobs > 1 then maxPendingJobs else 1;
      inflight := [];
    }

    method ReserveCapacity() returns (r: Admission)
      modifies this`free
      ensures match Taken(old(View()))
        case Some(taken) => r == Admitted && View() == taken
        case None => r == QueueFull(|inflight|) && View() == old(View())
    {
      if free > 0 {
        free := free - 1;
        return Admitted;
      }
      return QueueFull(|inflight|);
    }

    method ReleaseCapacity()
      modifies this
      ensures View() == Released(old(View()))
      ensures inflight == if old(inflight) == [] then [] else old(inflight)[1..]
    {
      if inflight != [] {
        inflight := inflight[1..];
      }
      free := free + 1;
    }

    method EnterFlight()
      modifies this`inflight
      ensures inflight == old(inflight) + [0] && View() == Entered(old(View()))
    {
      inflight := inflight + [0];
    }

    method QueueDepth() returns (depth: nat)
      ensures depth == View().inflight
    {
      depth := |inflight|;
    }

    /** A submission up to the point where its record is persisted: the slot is held exactly when it goes on. */
    method AdmitSubmission(tripped: bool) returns (r: Option<Admission>)
      modifies this
      ensures match Taken(old(View()))
        case None => r == Some(QueueFull(|inflight|)) && View() == old(View())
        case Some(taken) =>
          if tripped then r.None? && View() == Released(taken) else r == Some(Admitted) && View() == taken
    {
      var a := ReserveCapacity();
      if a.QueueFull? {
        return Some(a);
      }
      if tripped {
        ReleaseCapacity();
        return None;
      }
      return Some(Admitted);
    }

    /** Hand a persisted job to the executor: a file job enters the deque first, an attachment job does not. */
    method DispatchJob(kind: Kind)
      modifies this`inflight
      ensures View() == if kind.FileJob? then Entered(old(View())) else old(View())
    {
      if kind.FileJob? {
        EnterFlight();
      }
    }
  }

  /** The semaphore's permits: the configured number, but at least one. */
  function Capacity(maxPendingJobs: int): (c: nat)
    ensures c >= 1 && c >= maxPendingJobs && (c == 1 || c == maxPendingJobs)
  {
    if maxPendingJobs > 1 then maxPendingJobs else 1
  }

  datatype Kind = FileJob | AttachmentJob

  // A submission that got a slot: holding it, then rejected by the guard, or dispatched and later finished.
  datatype Stage = Reserved | Rejected | Dispatched | Finished

  datatype Entry = Entry(kind: Kind, stage: Stage, handedBack: nat)

  // stolen: deque elements popped by a rejection or an attachment job; missed: file jobs that found the deque empty.
  datatype State = State(capacity: nat, slots: Slots, jobs: map<int, Entry>, stolen: nat, missed: nat)

  datatype Action = Reserve(id: int, kind: Kind) | Refuse | Reject(id: int) | Dispatch(id: int) | Finish(id: int)

  function Init(maxPendingJobs: int): State {
    State(Capacity(maxPendingJobs), Slots(Capacity(maxPendingJobs), 0), map[], 0, 0)
  }

  function Release(s: State, id: int, stage: Stage): State
    requires id in s.jobs
  {
    var e := s.jobs[id];
    var ownsElement := stage.Finished? && e.kind.FileJob?;
    s.(slots := Released(s.slots),
       jobs := s.jobs[id := e.(stage := stage, handedBack := e.handedBack + 1)],
       stolen := if !ownsElement && s.slots.inflight > 0 then s.stolen + 1 else s.stolen,
       missed := if ownsElement && s.slots.inflight == 0 then s.missed + 1 else s.missed)
  }

  function Step(s: State, a: Action): Option<State> {
    match a
    case Reserve(id, kind) =>
      if id in s.jobs || Taken(s.slots).None? then None
      else Some(s.(slots := Taken(s.slots).value, jobs := s.jobs[id := Entry(kind, Reserved, 0)]))
    case Refuse =>
      if Taken(s.slots).None? then Some(s) else None
    case Reject(id) =>
      if id in s.jobs && s.jobs[id].stage.Reserved? then Some(Release(s, id, Rejected)) else None
    case Dispatch(id) =>
      if id in s.jobs && s.jobs[id].stage.Reserved?
      then
        Some(s.(slots := if s.jobs[id].kind.FileJob? then Entered(s.slots) else s.slots, jobs := s.jobs[id := s.jobs[id].(stage := Dispatched)]))
      else None
    case Finish(id) =>
      if id in s.jobs && s.jobs[id].stage.Dispatched? then Some(Release(s, id, Finished)) else None
  }

  function Exec(s: State, acts: seq<Action>): Option<State>
    decreases |acts|
  {
    if acts == [] then Some(s)
    else
      var next := Step(s, acts[0]);
      if next.None? then None else Exec(next.value, acts[1..])
  }

  /** Nothing is ever stuck: a held slot can be given back or dispatched, dispatched work can finish, and a new submission
      is either admitted or refused. */
  lemma NoSubmissionIsStuck(s: State, id: int, kind: Kind)
    ensures id in s.jobs && s.jobs[id].stage.Reserved? <==> Step(s, Reject(id)).Some?
    ensures id in s.jobs && s.jobs[id].stage.Reserved? <==> Step(s, Dispatch(id)).Some?
    ensures id in s.jobs && s.jobs[id].stage.Dispatched? <==> Step(s, Finish(id)).Some?
    ensures id !in s.jobs ==> (Step(s, Reserve(id, kind)).Some? <==> Step(s, Refuse).None?)
  {}

  predicate HoldsSlot(e: Entry) {
    e.stage.Reserved? || e.stage.Dispatched?
  }

  function Holding(jobs: map<int, Entry>): set<int> {
    Where(jobs, (e: Entry) => HoldsSlot(e))
  }

  function Unfinished(jobs: map<int, Entry>): set<int> {
    Where(jobs, (e: Entry) => e.stage.Dispatched?)
  }

  predicate IsUnfinishedFileJob(e: Entry) {
    e.stage.Dispatched? && e.kind.FileJob?
  }

  function UnfinishedFileJobs(jobs: map<int, Entry>): set<int> {
    Where(jobs, (e: Entry) => IsUnfinishedFileJob(e))
  }

  predicate Inv(s: State) {
    && s.slots.free + |Holding(s.jobs)| == s.capacity
    && s.slots.inflight + s.stolen == |UnfinishedFileJobs(s.jobs)| + s.missed
    && s.missed <= s.stolen
    && (forall id | id in s.jobs :: s.jobs[id].handedBack == if HoldsSlot(s.jobs[id]) then 0 else 1)
  }

  lemma StepKeepsInv(s: State, a: Action)
    requires Inv(s) && Step(s, a).Some?
    ensures Inv(Step(s, a).value) && Step(s, a).value.capacity == s.capacity
  {
    if !a.Refuse? {
      var after := Step(s, a).value.jobs[a.id];
      WhereAfterUpdate(s.jobs, (e: Entry) => HoldsSlot(e), a.id, after);
      WhereAfterUpdate(s.jobs, (e: Entry) => IsUnfinishedFileJob(e), a.id, after);
    }
  }

  lemma {:induction false} RunKeepsInv(s: State, acts: seq<Action>)
    requires Inv(s) && Exec(s, acts).Some?
    ensures Inv(Exec(s, acts).value) && Exec(s, acts).value.capacity == s.capacity
    decreases |acts|
  {
    if acts != [] {
      StepKeepsInv(s, acts[0]);
      RunKeepsInv(Step(s, acts[0]).value, acts[1..]);
    }
  }

  /** In every interleaving free and held slots add up to the capacity, every admitted submission that is over has
      returned its slot exactly once and no other has, and a submission is refused exactly when every slot is held. */
  lemma SlotsAreConserved(maxPendingJobs: int, acts: seq<Action>)
    requires Exec(Init(maxPendingJobs), acts).Some?
    ensures var s := Exec(Init(maxPendingJobs), acts).value;
      && s.slots.free + |Holding(s.jobs)| == Capacity(maxPendingJobs)
      && (forall id | id in s.jobs :: s.jobs[id].handedBack == if HoldsSlot(s.jobs[id]) then 0 else 1)
      && (Step(s, Refuse).Some? <==> |Holding(s.jobs)| == Capacity(maxPendingJobs))
  {
    assert Inv(Init(maxPendingJobs));
    RunKeepsInv(Init(maxPendingJobs), acts);
  }

  /** The reported depth is the number of unfinished file jobs less the elements others popped and no file job missed;
      it never exceeds the unfinished jobs, and equals them exactly when no attachment job is unfinished and the two balance. */
  lemma DepthIsBoundedByFileJobs(maxPendingJobs: int, acts: seq<Action>)
    requires Exec(Init(maxPendingJobs), acts).Some?
    ensures var s := Exec(Init(maxPendingJobs), acts).value;
      && s.slots.inflight == |UnfinishedFileJobs(s.jobs)| + s.missed - s.stolen
      && s.slots.inflight <= |UnfinishedFileJobs(s.jobs)| <= |Unfinished(s.jobs)|
      && (s.slots.inflight == |Unfinished(s.jobs)| <==> NoUnfinishedAttachment(s.jobs) && s.stolen == s.missed)
  {
    assert Inv(Init(maxPendingJobs));
    RunKeepsInv(Init(maxPendingJobs), acts);
    var s := Exec(Init(maxPendingJobs), acts).value;
    SubsetSize(UnfinishedFileJobs(s.jobs), Unfinished(s.jobs));
    AttachmentsMakeTheDifference(s.jobs);
  }

  predicate NoUnfinishedAttachment(jobs: map<int, Entry>) {
    forall id | id in jobs :: !(jobs[id].stage.Dispatched? && jobs[id].kind.AttachmentJob?)
  }

  lemma AttachmentsMakeTheDifference(jobs: map<int, Entry>)
    ensures UnfinishedFileJobs(jobs) == Unfinished(jobs) <==> NoUnfinishedAttachment(jobs)
  {
    if NoUnfinishedAttachment(jobs) {
      assert forall id | id in Unfinished(jobs) :: id in UnfinishedFileJobs(jobs);
      assert UnfinishedFileJobs(jobs) == Unfinished(jobs);
    } else {
      var id :| id in jobs && jobs[id].stage.Dispatched? && jobs[id].kind.AttachmentJob?;
      assert id in Unfinished(jobs) && id !in UnfinishedFileJobs(jobs);
    }
  }

  lemma {:induction false} SubsetSize<T>(a: set<T>, b: set<T>)
    requires a <= b
    ensures |a| <= |b| && (|a| == |b| <==> a == b)
  {
    if x :| x in a {
      SubsetSize(a - {x}, b - {x});
      assert a == a - {x} + {x} && b == b - {x} + {x};
    } else if b != {} {
      assert |b| > 0;
    }
  }

  predicate OnlyFileJobs(s: State) {
    s.stolen == 0 && s.missed == 0 && forall id | id in s.jobs :: s.jobs[id].kind.FileJob?
  }

  /** With file jobs only and no guard rejection the depth is the number of dispatched unfinished jobs. */
  lemma {:induction false} DepthIsExactForFileJobs(s: State, acts: seq<Action>)
    requires Inv(s) && OnlyFileJobs(s) && Exec(s, acts).Some?
    requires forall i | 0 <= i < |acts| :: !acts[i].Reject? && (acts[i].Reserve? ==> acts[i].kind.FileJob?)
    ensures var t := Exec(s, acts).value; OnlyFileJobs(t) && t.slots.inflight == |Unfinished(t.jobs)|
    decreases |acts|
  {
    if acts == [] {
      forall id | id in Unfinished(s.jobs)
        ensures id in UnfinishedFileJobs(s.jobs)
      {
        assert s.jobs[id].kind.FileJob?;
      }
      assert UnfinishedFileJobs(s.jobs) == Unfinished(s.jobs);
    } else {
      StepKeepsInv(s, acts[0]);
      var t := Step(s, acts[0]).value;
      if acts[0].Finish? {
        assert acts[0].id in UnfinishedFileJobs(s.jobs);
      }
      DepthIsExactForFileJobs(t, acts[1..]);
    }
  }

  /** A pool filled by attachment jobs refuses with a reported depth of zero. */
  lemma AttachmentJobsAreNotCounted()
    ensures var acts := [Reserve(1, AttachmentJob), Dispatch(1), Reserve(2, AttachmentJob), Dispatch(2), Refuse];
      && Exec(Init(2), acts).Some?
      && var s := Exec(Init(2), acts).value; s.slots == Slots(0, 0) && |Unfinished(s.jobs)| == 2
  {
    var acts := [Reserve(1, AttachmentJob), Dispatch(1), Reserve(2, AttachmentJob), Dispatch(2), Refuse];
    var s1 := Step(Init(2), acts[0]).value;
    var s2 := Step(s1, acts[1]).value;
    var s3 := Step(s2, acts[2]).value;
    var s4 := Step(s3, acts[3]).value;
    assert acts[1..][1..][1..][1..][1..] == [];
    assert Exec(s4, acts[1..][1..][1..][1..]) == Some(s4);
    assert Exec(s3, acts[1..][1..][1..]) == Some(s4);
    assert Exec(s2, acts[1..][1..]) == Some(s4);
    assert Exec(s1, acts[1..]) == Some(s4);
    assert Unfinished(s4.jobs) == {1, 2};
  }
}
