// The rotation: one pass over the pool from its current index, probing each candidate until one is healthy.
module SessionRotator {
  import opened Common
  import opened SessionRecords
  import opened SessionManager

  datatype Verdict = Verdict(status: Status, reason: Option<Reason>)

  datatype Cause = EmptyPool | AllSessionsExcluded | AllSessionsLimited

  datatype Response = Success(session: Session) | NoEligibleSession(cause: Cause)

  // What a locked operation finds: the profile directories, and the time.
  datatype Look = Look(profiles: seq<Path>, now: int)

  // The environment of one rotation: what the probe of the k-th candidate says, and the world when it is marked.
  // The pool itself is loaded in the world `first`.
  datatype World = World(first: Look, probe: nat -> Verdict, look: nat -> Look)

  // ----- The order of the candidates -----

  /** Where a slice bound cuts n elements: negative bounds count from the end, and bounds beyond an end stop there. */
  function Cut(n: nat, bound: int): (c: nat)
    ensures c <= n
  {
    if bound >= n then n else if bound >= 0 then bound else if n + bound >= 0 then n + bound else 0
  }

  function SliceFrom<T>(s: seq<T>, bound: int): seq<T> { s[Cut(|s|, bound)..] }

  function SliceTo<T>(s: seq<T>, bound: int): seq<T> { s[..Cut(|s|, bound)] }

  function Ordered(p: Pool): seq<Session> {
    SliceFrom(p.sessions, p.currentIndex) + SliceTo(p.sessions, p.currentIndex)
  }

  /** Where the k-th candidate stands in the pool. */
  function Place(p: Pool, k: nat): (i: nat)
    requires k < |p.sessions|
    ensures i < |p.sessions|
  {
    var c := Cut(|p.sessions|, p.currentIndex);
    if c + k < |p.sessions| then c + k else c + k - |p.sessions|
  }

  /** For every stored index, whatever its sign and size, each session of the pool is a candidate exactly once. */
  lemma CandidatesAreThePool(p: Pool)
    ensures |Ordered(p)| == |p.sessions| && multiset(Ordered(p)) == multiset(p.sessions)
    ensures forall k | 0 <= k < |p.sessions| :: Ordered(p)[k] == p.sessions[Place(p, k)]
    ensures forall k, l | 0 <= k < l < |p.sessions| :: Place(p, k) != Place(p, l)
  {
    var c := Cut(|p.sessions|, p.currentIndex);
    assert p.sessions == p.sessions[..c] + p.sessions[c..];
  }

  /** The first candidate is the session at the stored index; a negative index counts from the end, and an index beyond
      either end starts at the first session. */
  lemma CandidatesStartAtTheIndex(p: Pool, k: nat)
    requires k < |p.sessions|
    ensures var n, i := |p.sessions|, p.currentIndex;
      var start := if 0 <= i < n then i else if -n <= i < 0 then n + i else 0;
      Ordered(p)[k] == p.sessions[if start + k < n then start + k else start + k - n]
  {
    CandidatesAreThePool(p);
    var n, i := |p.sessions|, p.currentIndex;
    if i >= n {
      assert Ordered(p) == p.sessions;
    }
  }

  // ----- One rotation -----

  predicate Wins(c: seq<Session>, excluded: set<string>, w: World, k: nat)
    requires k < |c|
  {
    c[k].id !in excluded && w.probe(k).status == Active
  }

  /** The first of the candidates from k on that is not excluded and probes healthy; their number when there is none. */
  function Winner(c: seq<Session>, excluded: set<string>, w: World, k: nat): (r: nat)
    requires k <= |c|
    ensures k <= r <= |c| && (r < |c| ==> Wins(c, excluded, w, r))
    ensures forall j | k <= j < r :: !Wins(c, excluded, w, j)
    decreases |c| - k
  {
    if k == |c| || Wins(c, excluded, w, k) then k else Winner(c, excluded, w, k + 1)
  }

  /** The candidates probed by a pass over the first k: all that are not excluded, in order. */
  function Probed(c: seq<Session>, excluded: set<string>, k: nat): seq<nat>
    requires k <= |c|
  {
    if k == 0 then [] else Probed(c, excluded, k - 1) + if c[k - 1].id in excluded then [] else [k - 1]
  }

  function Marking(x: Session, v: Verdict): Op {
    Mark(x.id, v.status, if v.status == Active then None else v.reason)
  }

  /** The pool file once the first k candidates have been passed. */
  function Marked(file: Option<Content>, c: seq<Session>, excluded: set<string>, w: World, k: nat): Option<Content>
    requires k <= |c|
  {
    if k == 0 then file
    else
      var before := Marked(file, c, excluded, w, k - 1);
      if c[k - 1].id in excluded then before
      else Changed(before, w.look(k - 1).profiles, w.look(k - 1).now, Marking(c[k - 1], w.probe(k - 1)))
  }

  /** How many candidates a rotation passes: up to and including the winner. */
  function Passed(c: seq<Session>, excluded: set<string>, w: World): (k: nat)
    ensures k <= |c|
  {
    var winner := Winner(c, excluded, w, 0);
    if winner < |c| then winner + 1 else winner
  }

  /** The pool file a rotation leaves. */
  function Rotated(file: Option<Content>, excluded: set<string>, w: World): Option<Content> {
    var c := Ordered(Current(file, w.first.profiles, w.first.now));
    Marked(Settled(file, w.first.profiles, w.first.now), c, excluded, w, Passed(c, excluded, w))
  }

  predicate AllExcluded(s: seq<Session>, excluded: set<string>) {
    excluded != {} && forall x | x in s :: x.id in excluded
  }

  function Answer(p: Pool, excluded: set<string>, w: World): Response {
    if p.sessions == [] then NoEligibleSession(EmptyPool)
    else
      var k := Winner(Ordered(p), excluded, w, 0);
      if k < |Ordered(p)| then Success(Ordered(p)[k])
      else NoEligibleSession(if AllExcluded(p.sessions, excluded) then AllSessionsExcluded else AllSessionsLimited)
  }

  class SessionRotator {
    const manager: SessionManager
    var totalAttempts: nat
    var successfulRotations: nat
    var sessionsExhausted: nat

    constructor (manager: SessionManager)
      ensures this.manager == manager
      ensures totalAttempts == successfulRotations == sessionsExhausted == 0
    {
      this.manager := manager;
      totalAttempts, successfulRotations, sessionsExhausted := 0, 0, 0;
    }

    method Rotate(excluded: set<string>, w: World) returns (r: Response, probed: seq<nat>)
      modifies this, manager
      ensures var p := Current(old(manager.file), w.first.profiles, w.first.now);
        && r == Answer(p, excluded, w)
        && probed == Probed(Ordered(p), excluded, Passed(Ordered(p), excluded, w))
      ensures manager.file == Rotated(old(manager.file), excluded, w)
      ensures totalAttempts == old(totalAttempts) + 1
      ensures successfulRotations == old(successfulRotations) + if r.Success? then 1 else 0
      ensures sessionsExhausted == old(sessionsExhausted) + if r.Success? then 0 else 1
    {
      totalAttempts := totalAttempts + 1;
      probed := [];
      var p := manager.LoadPool(w.first.profiles, w.first.now);
      if p.sessions == [] {
        sessionsExhausted := sessionsExhausted + 1;
        return NoEligibleSession(EmptyPool), probed;
      }
      var k;
      k, probed := ProbeInOrder(Ordered(p), excluded, w);
      if k < |Ordered(p)| {
        successfulRotations := successfulRotations + 1;
        return Success(Ordered(p)[k]), probed;
      }
      sessionsExhausted := sessionsExhausted + 1;
      r := NoEligibleSession(if AllExcluded(p.sessions, excluded) then AllSessionsExcluded else AllSessionsLimited);
    }

    /** Probe the candidates until one is healthy, saving every verdict. */
    method ProbeInOrder(c: seq<Session>, excluded: set<string>, w: World) returns (winner: nat, probed: seq<nat>)
      modifies manager
      ensures winner == Winner(c, excluded, w, 0)
      ensures probed == Probed(c, excluded, Passed(c, excluded, w))
      ensures manager.file == Marked(old(manager.file), c, excluded, w, Passed(c, excluded, w))
    {
      probed := [];
      for k := 0 to |c|
        invariant Winner(c, excluded, w, 0) == Winner(c, excluded, w, k)
        invariant probed == Probed(c, excluded, k) && manager.file == Marked(old(manager.file), c, excluded, w, k)
      {
        if c[k].id in excluded {
          continue;
        }
        probed := probed + [k];
        var healthy := ProbeAndMark(c, excluded, w, k, old(manager.file));
        if healthy {
          return k, probed;
        }
      }
      return |c|, probed;
    }

    /** Probe one candidate, and mark its session healthy, limited or in need of a login. */
    method ProbeAndMark(c: seq<Session>, ghost excluded: set<string>, w: World, k: nat, ghost file: Option<Content>)
      returns (healthy: bool)
      requires k < |c| && c[k].id !in excluded && manager.file == Marked(file, c, excluded, w, k)
      modifies manager
      ensures manager.file == Marked(file, c, excluded, w, k + 1)
      ensures healthy <==> Wins(c, excluded, w, k)
    {
      var verdict, look := w.probe(k), w.look(k);
      healthy := verdict.status == Active;
      if healthy {
        manager.MarkStatus(c[k].id, Active, None, look.profiles, look.now);
      } else if verdict.status == Limited {
        manager.MarkStatus(c[k].id, Limited, verdict.reason, look.profiles, look.now);
      } else {
        manager.MarkStatus(c[k].id, AuthRequired, verdict.reason, look.profiles, look.now);
      }
    }

    /** Rotate, send, and count the use. The attempt is counted here and once more by the rotation. */
    method ExecuteWithRotation(w: World, requestRaises: bool, after: Look) returns (used: Option<Session>)
      modifies this, manager
      ensures var p := Current(old(manager.file), w.first.profiles, w.first.now);
        && (Answer(p, {}, w).Success? <==> successfulRotations > old(successfulRotations))
        && used == if Answer(p, {}, w).Success? && !requestRaises then Some(Answer(p, {}, w).session) else None
      // The use is counted exactly when the request was answered.
      ensures manager.file ==
        if used.Some? then Changed(Rotated(old(manager.file), {}, w), after.profiles, after.now, Use(used.value.id, true))
        else Rotated(old(manager.file), {}, w)
      ensures totalAttempts - successfulRotations - sessionsExhausted
           == old(totalAttempts - successfulRotations - sessionsExhausted) + 1
    {
      totalAttempts := totalAttempts + 1;
      var r, _ := Rotate({}, w);
      if r.NoEligibleSession? || requestRaises {
        return None;
      }
      manager.MarkUsed(r.session.id, true, after.profiles, after.now);
      return Some(r.session);
    }
  }

  // ----- What a rotation means -----

  /** It ends without a session exactly when no session of the pool outside the excluded ones is healthy, and the
      excluded ones are blamed exactly when there is nothing else in a pool that is not empty. */
  lemma NoneExactlyWhenNoneIsHealthy(p: Pool, excluded: set<string>, w: World)
    ensures var r := Answer(p, excluded, w);
      && (r.NoEligibleSession? <==> forall k | 0 <= k < |p.sessions| :: !Wins(Ordered(p), excluded, w, k))
      && (r == NoEligibleSession(AllSessionsExcluded) <==> p.sessions != [] && forall x | x in p.sessions :: x.id in excluded)
  {
    CandidatesAreThePool(p);
    if p.sessions != [] && forall x | x in p.sessions :: x.id in excluded {
      assert p.sessions[0].id in excluded;
      forall k | 0 <= k < |p.sessions|
        ensures !Wins(Ordered(p), excluded, w, k)
      {
        assert Ordered(p)[k] in p.sessions;
      }
    }
  }

  /** A session that is answered is the first healthy one in order that is not excluded. */
  lemma FirstHealthyIsAnswered(p: Pool, excluded: set<string>, w: World, k: nat)
    requires k < |p.sessions|
    requires Wins(Ordered(p), excluded, w, k) && forall j: nat | j < k :: !Wins(Ordered(p), excluded, w, j)
    ensures Answer(p, excluded, w) == Success(Ordered(p)[k]) && Passed(Ordered(p), excluded, w) == k + 1
  {
    CandidatesAreThePool(p);
  }

  /** Exactly the candidates among the first k that are not excluded are probed, each once. */
  lemma {:induction false} ProbedOnce(c: seq<Session>, excluded: set<string>, k: nat)
    requires k <= |c|
    ensures forall i :: i in Probed(c, excluded, k) <==> 0 <= i < k && c[i].id !in excluded
    ensures forall i, j | 0 <= i < j < |Probed(c, excluded, k)| :: Probed(c, excluded, k)[i] < Probed(c, excluded, k)[j]
  {
    if k > 0 {
      ProbedOnce(c, excluded, k - 1);
      var front := Probed(c, excluded, k - 1);
      assert forall i | 0 <= i < |front| :: front[i] in front;
    }
  }

  /** The entry of a candidate after the first k were passed: as its probe found it, or untouched. */
  function EntryAfter(c: seq<Session>, excluded: set<string>, w: World, k: nat, i: nat): Session
    requires i < |c|
  {
    if i < k && c[i].id !in excluded then
      c[i].(status := w.probe(i).status, reason := if w.probe(i).status == Active then None else w.probe(i).reason)
    else c[i]
  }

  ghost predicate EntriesAre(p: Pool, s: seq<Session>, excluded: set<string>, w: World, k: nat) {
    && |p.sessions| <= |s| && UniqueIds(s) && |Ordered(p)| == |p.sessions|
    && forall i | 0 <= i < |p.sessions| :: SameEntry(s[Place(p, i)], EntryAfter(Ordered(p), excluded, w, k, i))
  }

  lemma OneMoreMark(p: Pool, s: seq<Session>, excluded: set<string>, w: World, k: nat, profiles: seq<Path>, now: int)
    requires k < |p.sessions| && EntriesAre(p, s, excluded, w, k) && Ordered(p)[k].id !in excluded
    ensures EntriesAre(p, Mutated(Discovered(s, profiles, now), Marking(Ordered(p)[k], w.probe(k)), now), excluded, w, k + 1)
  {
    CandidatesAreThePool(p);
    var d, op := Discovered(s, profiles, now), Marking(Ordered(p)[k], w.probe(k));
    DiscoveryRegistersWhatIsUnknown(s, profiles, now);
    DiscoveryKeepsUniqueness(s, profiles, now);
    OperationsKeepIdsUnique(d, op, now);
    var r := Mutated(d, op, now);
    UpdatesTouchOnlyTheirSession(d, op, now, Place(p, k));
    forall i | 0 <= i < |p.sessions|
      ensures SameEntry(r[Place(p, i)], EntryAfter(Ordered(p), excluded, w, k + 1, i))
    {
      UpdatesTouchOnlyTheirSession(d, op, now, Place(p, i));
      if i != k {
        assert d[Place(p, i)].id != d[Place(p, k)].id;
      }
    }
  }

  lemma {:induction false} EntriesCarryTheirVerdicts(file: Option<Content>, p: Pool, excluded: set<string>, w: World, k: nat, now: int)
    requires UniqueIds(p.sessions) && k <= |Ordered(p)| == |p.sessions|
    requires forall t :: SameEntries(Loaded(file, t).sessions, p.sessions)
    ensures EntriesAre(p, Loaded(Marked(file, Ordered(p), excluded, w, k), now).sessions, excluded, w, k)
  {
    if k == 0 {
      NothingPassedYet(p, Loaded(file, now).sessions, excluded, w);
    } else {
      var at := w.look(k - 1).now;
      EntriesCarryTheirVerdicts(file, p, excluded, w, k - 1, if Ordered(p)[k - 1].id in excluded then now else at);
      OneMoreCandidate(file, p, excluded, w, k - 1, now);
    }
  }

  /** After a rotation, whenever the file is loaded, the entry of every probed session carries its probe's verdict, and
      every other entry of the pool is untouched. */
  lemma RotationSavesItsVerdicts(file: Option<Content>, excluded: set<string>, w: World, now: int)
    requires UniqueIds(Current(file, w.first.profiles, w.first.now).sessions)
    ensures var p := Current(file, w.first.profiles, w.first.now);
      EntriesAre(p, Loaded(Rotated(file, excluded, w), now).sessions, excluded, w, Passed(Ordered(p), excluded, w))
  {
    var p := Current(file, w.first.profiles, w.first.now);
    var settled := Settled(file, w.first.profiles, w.first.now);
    CandidatesAreThePool(p);
    forall t
      ensures SameEntries(Loaded(settled, t).sessions, p.sessions)
    {
      SettledLoads(file, w.first.profiles, w.first.now, t);
    }
    EntriesCarryTheirVerdicts(settled, p, excluded, w, Passed(Ordered(p), excluded, w), now);
  }

  lemma NothingPassedYet(p: Pool, s: seq<Session>, excluded: set<string>, w: World)
    requires UniqueIds(p.sessions) && SameEntries(s, p.sessions)
    ensures EntriesAre(p, s, excluded, w, 0)
  {
    CandidatesAreThePool(p);
    forall i, j | 0 <= i < j < |s|
      ensures s[i].id != s[j].id
    {
      assert SameEntry(s[i], p.sessions[i]) && SameEntry(s[j], p.sessions[j]);
    }
  }

  lemma OneMoreCandidate(file: Option<Content>, p: Pool, excluded: set<string>, w: World, k: nat, now: int)
    requires k < |Ordered(p)| == |p.sessions|
    requires var t := if Ordered(p)[k].id in excluded then now else w.look(k).now;
      EntriesAre(p, Loaded(Marked(file, Ordered(p), excluded, w, k), t).sessions, excluded, w, k)
    ensures EntriesAre(p, Loaded(Marked(file, Ordered(p), excluded, w, k + 1), now).sessions, excluded, w, k + 1)
  {
    var before := Marked(file, Ordered(p), excluded, w, k);
    var look := w.look(k);
    if Ordered(p)[k].id in excluded {
      SkippedCandidate(p, Loaded(before, now).sessions, excluded, w, k);
    } else {
      OneMoreMark(p, Loaded(before, look.now).sessions, excluded, w, k, look.profiles, look.now);
      ChangesAreLoaded(before, look.profiles, look.now, Marking(Ordered(p)[k], w.probe(k)), now);
    }
  }

  lemma SkippedCandidate(p: Pool, s: seq<Session>, excluded: set<string>, w: World, k: nat)
    requires k < |p.sessions| && EntriesAre(p, s, excluded, w, k) && Ordered(p)[k].id in excluded
    ensures EntriesAre(p, s, excluded, w, k + 1)
  {
    forall i | 0 <= i < |p.sessions|
      ensures SameEntry(s[Place(p, i)], EntryAfter(Ordered(p), excluded, w, k + 1, i))
    {
      assert SameEntry(s[Place(p, i)], EntryAfter(Ordered(p), excluded, w, k, i));
    }
  }
}
