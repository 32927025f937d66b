// Processes that share one pool file: every read, save and crash is a step of its own, and only the lock orders them.
module SessionPoolRuns {
  import opened Common
  import opened SessionRecords
  import opened SessionManager

  type Pid = nat

  datatype Work = LoadOnly | Change(op: Op)

  // Where a process stands. From Holding on it holds the lock; HasRead carries its private copy of the pool, and the
  // directories it discovered while that copy is still to be saved.
  datatype Phase =
    | Idle
    | Waiting(work: Work)
    | Holding(work: Work)
    | HasRead(work: Work, copy: Pool, unsaved: Option<Discovery>)
    | Done

  datatype Discovery = Discovery(profiles: seq<Path>, now: int)

  // What was written, in the order of the writes.
  datatype Write = Discoveries(d: Discovery) | Mutation(op: Op, now: int)

  // disk: the pool the file stands for.
  datatype State = State(disk: Pool, holder: Option<Pid>, phases: map<Pid, Phase>, log: seq<Write>)

  datatype Action =
    | Request(pid: Pid, work: Work)
    | Look(pid: Pid, profiles: seq<Path>, now: int)  // load_pool without the lock
    | Acquire(pid: Pid)
    | Read(pid: Pid, profiles: seq<Path>, now: int)
    | SaveDiscoveries(pid: Pid)
    | Commit(pid: Pid, now: int)
    | Release(pid: Pid)
    | Crash(pid: Pid)                                // the process dies, and the system frees its lock

  function PhaseOf(s: State, pid: Pid): Phase {
    if pid in s.phases then s.phases[pid] else Idle
  }

  function At(s: State, pid: Pid, phase: Phase): State {
    s.(phases := s.phases[pid := phase])
  }

  /** Whether the operation writes the file: an import of a known target and a removal that finds nothing do not. */
  predicate Saves(s: seq<Session>, op: Op) {
    match op
    case Import(_, _) => Target(s, op) == |s|
    case RemoveId(_) => Target(s, op) < |s|
    case RemoveName(_) => Target(s, op) < |s|
    case _ => true
  }

  /** Steps that are not enabled change nothing. */
  function Step(s: State, a: Action): State {
    var phase := PhaseOf(s, a.pid);
    match a
    case Request(pid, work) => if phase.Idle? then At(s, pid, Waiting(work)) else s
    case Look(pid, profiles, now) =>
      if phase.Idle? && Discovered(s.disk.sessions, profiles, now) != s.disk.sessions then At(s, pid, Waiting(LoadOnly)) else s
    case Acquire(pid) =>
      if phase.Waiting? && s.holder.None? then At(s, pid, Holding(phase.work)).(holder := Some(pid)) else s
    case Read(pid, profiles, now) =>
      if phase.Holding? then
        var all := Discovered(s.disk.sessions, profiles, now);
        var unsaved := if all == s.disk.sessions then None else Some(Discovery(profiles, now));
        At(s, pid, HasRead(phase.work, s.disk.(sessions := all), unsaved))
      else s
    case SaveDiscoveries(pid) =>
      if phase.HasRead? && phase.unsaved.Some? then
        At(s, pid, phase.(unsaved := None)).(disk := phase.copy, log := s.log + [Discoveries(phase.unsaved.value)])
      else s
    case Commit(pid, now) =>
      if phase.HasRead? && phase.unsaved.None? then
        (match phase.work
         case LoadOnly => At(s, pid, Done)
         case Change(op) =>
           var mutated := phase.copy.(sessions := Mutated(phase.copy.sessions, op, now));
           At(s, pid, Done).(disk := if Saves(phase.copy.sessions, op) then mutated else s.disk,
                             log := s.log + [Mutation(op, now)]))
      else s
    case Release(pid) => if phase.Done? then At(s, pid, Idle).(holder := None) else s
    case Crash(pid) => At(s, pid, Idle).(holder := if s.holder == Some(pid) then None else s.holder)
  }

  /** A step is taken exactly in its phase; a look asks for the lock exactly when it discovers something, and a crash
      leaves the file as it is and gives back the lock if it was held. */
  lemma StepsHaveTheirPhase(s: State, pid: Pid, work: Work, profiles: seq<Path>, now: int)
    ensures var phase := PhaseOf(s, pid);
      && PhaseOf(Step(s, Request(pid, work)), pid) == (if phase.Idle? then Waiting(work) else phase)
      && PhaseOf(Step(s, Look(pid, profiles, now)), pid) ==
           (if phase.Idle? && !(Resolved(profiles) <= Known(s.disk.sessions)) then Waiting(LoadOnly) else phase)
      && PhaseOf(Step(s, Acquire(pid)), pid) == (if phase.Waiting? && s.holder.None? then Holding(phase.work) else phase)
      && PhaseOf(Step(s, Release(pid)), pid) == (if phase.Done? then Idle else phase)
      && (Step(s, Release(pid)).holder == if phase.Done? then None else s.holder)
      && (phase.HasRead? && phase.unsaved.None? && phase.work.LoadOnly? ==> Step(s, Commit(pid, now)) == At(s, pid, Done))
      && PhaseOf(Step(s, Crash(pid)), pid).Idle? && Step(s, Crash(pid)).disk == s.disk && Step(s, Crash(pid)).log == s.log
      && Step(s, Crash(pid)).holder == (if s.holder == Some(pid) then None else s.holder)
  {
    DiscoveryIsQuietWhenAllIsKnown(s.disk.sessions, profiles, now);
  }

  function Exec(s: State, run: seq<Action>): State {
    if run == [] then s else Step(Exec(s, run[..|run| - 1]), run[|run| - 1])
  }

  function Start(pool: Pool): State { State(pool, None, map[], []) }

  function WriteOnce(s: seq<Session>, w: Write): seq<Session> {
    match w
    case Discoveries(d) => Discovered(s, d.profiles, d.now)
    case Mutation(op, now) => Mutated(s, op, now)
  }

  /** One process alone, making the logged changes one after the other. */
  function Replay(s: seq<Session>, log: seq<Write>): seq<Session> {
    if log == [] then s else WriteOnce(Replay(s, log[..|log| - 1]), log[|log| - 1])
  }

  /** Only the holder is past the lock, and its private copy is the disk's pool with what it discovered. */
  predicate Coherent(s: State, pid: Pid) {
    var phase := PhaseOf(s, pid);
    && ((phase.Holding? || phase.HasRead? || phase.Done?) <==> s.holder == Some(pid))
    && (phase.HasRead? ==> phase.copy == WithDiscoveries(s.disk, phase.unsaved))
  }

  function WithDiscoveries(p: Pool, d: Option<Discovery>): Pool {
    if d.None? then p else p.(sessions := Discovered(p.sessions, d.value.profiles, d.value.now))
  }

  ghost predicate Inv(initial: Pool, s: State) {
    && s.disk == initial.(sessions := Replay(initial.sessions, s.log))
    && forall pid :: Coherent(s, pid)
  }

  lemma OneMoreWrite(s: seq<Session>, log: seq<Write>, w: Write)
    ensures Replay(s, log + [w]) == WriteOnce(Replay(s, log), w)
  {}

  lemma UnsavedMeansUnchanged(s: seq<Session>, op: Op, now: int)
    requires !Saves(s, op)
    ensures Mutated(s, op, now) == s
  {}

  lemma SaveIsLogged(initial: Pool, s: State, pid: Pid)
    requires Inv(initial, s)
    ensures var t := Step(s, SaveDiscoveries(pid)); t.disk == initial.(sessions := Replay(initial.sessions, t.log))
  {
    var phase := PhaseOf(s, pid);
    assert Coherent(s, pid);
    if phase.HasRead? && phase.unsaved.Some? {
      OneMoreWrite(initial.sessions, s.log, Discoveries(phase.unsaved.value));
    }
  }

  lemma CommitIsLogged(initial: Pool, s: State, pid: Pid, now: int)
    requires Inv(initial, s)
    ensures var t := Step(s, Commit(pid, now)); t.disk == initial.(sessions := Replay(initial.sessions, t.log))
  {
    var phase := PhaseOf(s, pid);
    assert Coherent(s, pid);
    if phase.HasRead? && phase.unsaved.None? && phase.work.Change? {
      OneMoreWrite(initial.sessions, s.log, Mutation(phase.work.op, now));
      if !Saves(phase.copy.sessions, phase.work.op) {
        UnsavedMeansUnchanged(phase.copy.sessions, phase.work.op, now);
      }
    }
  }

  lemma StepLogsItsWrite(initial: Pool, s: State, a: Action)
    requires Inv(initial, s)
    ensures Step(s, a).disk == initial.(sessions := Replay(initial.sessions, Step(s, a).log))
  {
    match a
    case SaveDiscoveries(pid) => SaveIsLogged(initial, s, pid);
    case Commit(pid, now) => CommitIsLogged(initial, s, pid, now);
    case _ =>
  }

  lemma StepKeepsCoherence(s: State, a: Action, pid: Pid)
    requires Coherent(s, a.pid) && Coherent(s, pid)
    ensures Coherent(Step(s, a), pid)
  {
    match a
    case Read(_, _, _) =>
    case SaveDiscoveries(_) =>
    case Commit(_, _) =>
    case _ =>
  }

  /** Whatever the interleaving, the file holds what the logged changes make of the initial pool one after the other:
      no update is lost, and none works on a stale copy. */
  lemma {:induction false} UpdatesAreSerializable(initial: Pool, run: seq<Action>)
    ensures Inv(initial, Exec(Start(initial), run))
  {
    if run == [] {
      assert forall pid :: Coherent(Start(initial), pid);
    } else {
      var s, a := Exec(Start(initial), run[..|run| - 1]), run[|run| - 1];
      UpdatesAreSerializable(initial, run[..|run| - 1]);
      StepLogsItsWrite(initial, s, a);
      forall pid
        ensures Coherent(Step(s, a), pid)
      {
        assert Coherent(s, a.pid) && Coherent(s, pid);
        StepKeepsCoherence(s, a, pid);
      }
    }
  }

  /** No logged operation added a known directory under a new spelling. */
  predicate NoAliases(s: seq<Session>, log: seq<Write>) {
    log == [] ||
      (var front := log[..|log| - 1];
       && NoAliases(s, front)
       && (log[|log| - 1].Mutation? ==> !MayAlias(Replay(s, front), log[|log| - 1].op)))
  }

  lemma {:induction false} ReplayKeepsIdsUnique(s: seq<Session>, log: seq<Write>)
    requires UniqueIds(s)
    ensures UniqueIds(Replay(s, log))
  {
    if log != [] {
      var r, w := Replay(s, log[..|log| - 1]), log[|log| - 1];
      ReplayKeepsIdsUnique(s, log[..|log| - 1]);
      match w
      case Discoveries(d) => DiscoveryKeepsUniqueness(r, d.profiles, d.now);
      case Mutation(op, now) => OperationsKeepIdsUnique(r, op, now);
    }
  }

  lemma {:induction false} ReplayKeepsDirsUnique(s: seq<Session>, log: seq<Write>)
    requires UniqueDirs(s) && NoAliases(s, log)
    ensures UniqueDirs(Replay(s, log))
  {
    if log != [] {
      var r, w := Replay(s, log[..|log| - 1]), log[|log| - 1];
      ReplayKeepsDirsUnique(s, log[..|log| - 1]);
      match w
      case Discoveries(d) => DiscoveryKeepsUniqueness(r, d.profiles, d.now);
      case Mutation(op, now) => OperationsKeepDirsUnique(r, op, now);
    }
  }

  /** In every reachable state the ids on disk are unique, and so are the directories while no alias was added. */
  lemma PoolStaysUnique(initial: Pool, run: seq<Action>)
    requires UniqueIds(initial.sessions)
    ensures var s := Exec(Start(initial), run);
      && UniqueIds(s.disk.sessions)
      && (UniqueDirs(initial.sessions) && NoAliases(initial.sessions, s.log) ==> UniqueDirs(s.disk.sessions))
  {
    var s := Exec(Start(initial), run);
    UpdatesAreSerializable(initial, run);
    ReplayKeepsIdsUnique(initial.sessions, s.log);
    if UniqueDirs(initial.sessions) && NoAliases(initial.sessions, s.log) {
      ReplayKeepsDirsUnique(initial.sessions, s.log);
    }
  }

  /** One operation run to its end without a crash, from a free lock: the atomic effect the manager's methods promise. */
  lemma UndisturbedOperation(s: State, pid: Pid, op: Op, profiles: seq<Path>, now: int)
    requires PhaseOf(s, pid).Idle? && s.holder.None?
    ensures var run := [Request(pid, Change(op)), Acquire(pid), Read(pid, profiles, now), SaveDiscoveries(pid), Commit(pid, now), Release(pid)];
      var t := Exec(s, run);
      && t.disk == s.disk.(sessions := Mutated(Discovered(s.disk.sessions, profiles, now), op, now))
      && t.holder.None? && PhaseOf(t, pid).Idle?
  {
    var s1 := Step(s, Request(pid, Change(op)));
    var s2 := Step(s1, Acquire(pid));
    var s3 := Step(s2, Read(pid, profiles, now));
    var s4 := Step(s3, SaveDiscoveries(pid));
    var s5 := Step(s4, Commit(pid, now));
    var s6 := Step(s5, Release(pid));
    var all := Discovered(s.disk.sessions, profiles, now);
    assert PhaseOf(s4, pid) == HasRead(Change(op), s.disk.(sessions := all), None) && s4.disk.sessions == all;
    if !Saves(all, op) {
      UnsavedMeansUnchanged(all, op, now);
    }
    SixSteps(s, Request(pid, Change(op)), Acquire(pid), Read(pid, profiles, now), SaveDiscoveries(pid), Commit(pid, now), Release(pid));
  }

  lemma SixSteps(s: State, a: Action, b: Action, c: Action, d: Action, e: Action, f: Action)
    ensures Exec(s, [a, b, c, d, e, f]) == Step(Step(Step(Step(Step(Step(s, a), b), c), d), e), f)
  {
    assert [a, b, c, d, e, f][..5] == [a, b, c, d, e] && [a, b, c, d, e][..4] == [a, b, c, d];
    assert [a, b, c, d][..3] == [a, b, c] && [a, b, c][..2] == [a, b] && [a, b][..1] == [a] && [a][..0] == [];
    assert Exec(s, [a]) == Step(s, a);
    assert Exec(s, [a, b, c]) == Step(Step(Step(s, a), b), c);
    assert Exec(s, [a, b, c, d, e]) == Step(Step(Exec(s, [a, b, c]), d), e);
  }
}
