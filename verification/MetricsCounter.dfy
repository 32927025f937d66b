// The write-behind metrics file: counters and a rolling window of executions.
module MetricsCounter {
  import opened Common

  // at: None when the stored time is missing or unreadable.
  datatype Execution = Execution(at: Option<int>, success: bool)

  datatype Content = Unreadable | Content(counters: map<string, int>, events: seq<Execution>, total: nat, successful: nat)

  datatype Mutation = Add(key: string, amount: int) | Record(event: Execution)

  const FLUSH_EVERY := 64
  const WINDOW := 24 * 60 * 60

  const ERROR_PREFIX := "error."

  // ----- The rolling window -----

  /** The executions of the last 24 hours. */
  function Prune(events: seq<Execution>, now: int): seq<Execution> {
    if events == [] then []
    else
      var last := events[|events| - 1];
      Prune(events[..|events| - 1], now) + if last.at.Some? && last.at.value >= now - WINDOW then [last] else []
  }

  function Successes(events: seq<Execution>): (n: nat)
    ensures n <= |events|
  {
    if events == [] then 0 else Successes(events[..|events| - 1]) + if events[|events| - 1].success then 1 else 0
  }

  /** The number of executions that succeeded. */
  lemma {:induction false} SuccessesAreCounted(events: seq<Execution>)
    ensures Successes(events) == |SuccessPlaces(events)|
  {
    if events != [] {
      var n := |events| - 1;
      SuccessesAreCounted(events[..n]);
      assert SuccessPlaces(events) == SuccessPlaces(events[..n]) + if events[n].success then {n} else {};
    }
  }

  function SuccessPlaces(events: seq<Execution>): set<nat> { set i: nat | i < |events| && events[i].success }

  lemma {:induction false} PruneConcat(a: seq<Execution>, b: seq<Execution>, now: int)
    ensures Prune(a + b, now) == Prune(a, now) + Prune(b, now)
  {
    if b == [] {
      assert a + b == a;
    } else {
      assert (a + b)[..|a + b| - 1] == a + b[..|b| - 1];
      PruneConcat(a, b[..|b| - 1], now);
    }
  }

  /** Pruning again later is pruning once, at the later time. */
  lemma {:induction false} LaterPruneDecides(events: seq<Execution>, now: int, later: int)
    requires now <= later
    ensures Prune(Prune(events, now), later) == Prune(events, later)
  {
    if events != [] {
      var front, last := events[..|events| - 1], events[|events| - 1];
      LaterPruneDecides(front, now, later);
      var kept := if last.at.Some? && last.at.value >= now - WINDOW then [last] else [];
      PruneConcat(Prune(front, now), kept, later);
      assert kept != [] ==> kept[..0] == [] && kept[0] == last;
    }
  }

  /** From a time on, two histories show the same window. */
  ghost predicate SameFrom(a: seq<Execution>, b: seq<Execution>, clock: int) {
    forall now | now >= clock :: Prune(a, now) == Prune(b, now)
  }

  lemma PrunedIsSame(a: seq<Execution>, b: seq<Execution>, clock: int, now: int)
    requires SameFrom(a, b, clock) && now >= clock
    ensures SameFrom(Prune(a, now), b, now)
  {
    forall later | later >= now
      ensures Prune(Prune(a, now), later) == Prune(b, later)
    {
      LaterPruneDecides(a, now, later);
    }
  }

  lemma AppendedIsSame(a: seq<Execution>, b: seq<Execution>, clock: int, e: Execution)
    requires SameFrom(a, b, clock)
    ensures SameFrom(a + [e], b + [e], clock)
  {
    forall now | now >= clock
      ensures Prune(a + [e], now) == Prune(b + [e], now)
    {
      PruneConcat(a, [e], now);
      PruneConcat(b, [e], now);
    }
  }

  // ----- Disk and memory -----

  function SavedCounters(file: Option<Content>): map<string, int> {
    if file.Some? && file.value.Content? then file.value.counters else map[]
  }

  function SavedEvents(file: Option<Content>): seq<Execution> {
    if file.Some? && file.value.Content? then file.value.events else []
  }

  function CountOf(counters: map<string, int>, key: string): (n: int)
    ensures key in counters ==> n == counters[key]
    ensures key !in counters ==> n == 0
  {
    if key in counters then counters[key] else 0
  }

  function CountOne(c: map<string, int>, m: Mutation): map<string, int> {
    match m
    case Add(key, amount) => c[key := CountOf(c, key) + amount]
    case Record(_) => c
  }

  function RecordOne(m: Mutation): seq<Execution> {
    match m
    case Add(_, _) => []
    case Record(e) => [e]
  }

  /** The counters after a list of mutations. */
  function Counted(counters: map<string, int>, mutations: seq<Mutation>): map<string, int> {
    if mutations == [] then counters
    else CountOne(Counted(counters, mutations[..|mutations| - 1]), mutations[|mutations| - 1])
  }

  function Recorded(mutations: seq<Mutation>): seq<Execution> {
    if mutations == [] then [] else Recorded(mutations[..|mutations| - 1]) + RecordOne(mutations[|mutations| - 1])
  }

  lemma OneMoreMutation(counters: map<string, int>, mutations: seq<Mutation>, m: Mutation)
    ensures Counted(counters, mutations + [m]) == CountOne(Counted(counters, mutations), m)
    ensures Recorded(mutations + [m]) == Recorded(mutations) + RecordOne(m)
  {
    assert (mutations + [m])[..|mutations|] == mutations;
  }

  class MetricsCounter {
    var counters: map<string, int>
    var events: seq<Execution>
    var dirty: bool
    var mutationCount: nat
    var file: Option<Content>

    // The mutations since the file was last written, and the last time the clock was read.
    ghost var unsaved: seq<Mutation>
    ghost var clock: int

    /** Memory is what the file holds plus the unsaved mutations; and of those there are never more than 63. */
    ghost predicate Valid()
      reads this
    {
      && counters == Counted(SavedCounters(file), unsaved)
      && SameFrom(events, SavedEvents(file) + Recorded(unsaved), clock)
      && (dirty <==> unsaved != [])
      && |unsaved| <= mutationCount
      && (dirty ==> mutationCount < FLUSH_EVERY)
    }

    constructor (file: Option<Content>, now: int)
      ensures Valid() && this.file == file && !dirty && unsaved == [] && mutationCount == 0 && clock == now
      ensures counters == SavedCounters(file) && events == Prune(SavedEvents(file), now)
    {
      this.file, dirty, mutationCount, unsaved, clock := file, false, 0, [], now;
      counters, events := SavedCounters(file), Prune(SavedEvents(file), now);
      new;
      assert SavedEvents(file) + Recorded([]) == SavedEvents(file);
      PrunedIsSame(SavedEvents(file), SavedEvents(file), now, now);
    }

    method PruneEvents(now: int)
      requires Valid() && now >= clock
      modifies this`events, this`clock
      ensures Valid() && clock == now && events == Prune(old(events), now)
    {
      PrunedIsSame(events, SavedEvents(file) + Recorded(unsaved), clock, now);
      var kept := KeepRecent(events, now);
      events, clock := kept, now;
    }

    static method KeepRecent(events: seq<Execution>, now: int) returns (kept: seq<Execution>)
      ensures kept == Prune(events, now)
    {
      kept := [];
      for i := 0 to |events|
        invariant kept == Prune(events[..i], now)
      {
        assert events[..i + 1][..i] == events[..i];
        if events[i].at.Some? && events[i].at.value >= now - WINDOW {
          kept := kept + [events[i]];
        }
      }
      assert events[..|events|] == events;
    }

    /** Write the pruned state out. The count of mutations is not reset. */
    method Persist(now: int)
      requires now >= clock
      modifies this`events, this`clock, this`file, this`dirty, this`unsaved
      ensures Valid() && !dirty && unsaved == [] && clock == now
      ensures events == Prune(old(events), now)
      ensures file == Some(Content(counters, events, |events|, Successes(events)))
    {
      var pruned := Prune(events, now);
      events, clock := pruned, now;
      file := Some(Content(counters, events, |events|, Successes(events)));
      dirty, unsaved := false, [];
      assert events + Recorded([]) == events;
    }

    /** A mutation made in memory is written at once when it is the 64th or a later one. */
    method MarkDirty(ghost m: Mutation, now: int)
      requires |unsaved| <= mutationCount && (unsaved != [] ==> mutationCount < FLUSH_EVERY)
      requires counters == Counted(SavedCounters(file), unsaved + [m]) && now >= clock
      requires SameFrom(events, SavedEvents(file) + Recorded(unsaved + [m]), clock)
      modifies this`events, this`clock, this`file, this`dirty, this`unsaved, this`mutationCount
      ensures Valid() && mutationCount == old(mutationCount) + 1
      ensures SameFrom(events, old(events), clock)
      ensures if mutationCount >= FLUSH_EVERY then !dirty && file.Some? && file.value.Content? && file.value.counters == counters
              else file == old(file) && unsaved == old(unsaved) + [m]
    {
      dirty, mutationCount, unsaved := true, mutationCount + 1, unsaved + [m];
      if mutationCount >= FLUSH_EVERY {
        PrunedIsSame(events, events, clock, now);
        Persist(now);
      }
    }

    method Increment(key: string, amount: int, now: int)
      requires Valid() && now >= clock
      modifies this
      ensures Valid() && mutationCount == old(mutationCount) + 1
      ensures counters == old(counters)[key := CountOf(old(counters), key) + amount]
      ensures SameFrom(events, old(events), clock)
      ensures mutationCount >= FLUSH_EVERY ==> !dirty
    {
      OneMoreMutation(SavedCounters(file), unsaved, Add(key, amount));
      assert Recorded(unsaved + [Add(key, amount)]) == Recorded(unsaved);
      counters := counters[key := CountOf(counters, key) + amount];
      MarkDirty(Add(key, amount), now);
    }

    method RecordExecution(success: bool, now: int)
      requires Valid() && now >= clock
      modifies this
      ensures Valid() && mutationCount == old(mutationCount) + 1
      ensures counters == old(counters)
      ensures SameFrom(events, old(events) + [Execution(Some(now), success)], clock)
      ensures mutationCount >= FLUSH_EVERY ==> !dirty
    {
      var e := Execution(Some(now), success);
      OneMoreMutation(SavedCounters(file), unsaved, Record(e));
      AppendedIsSame(events, SavedEvents(file) + Recorded(unsaved), clock, e);
      assert SavedEvents(file) + Recorded(unsaved + [Record(e)]) == SavedEvents(file) + Recorded(unsaved) + [e];
      events := events + [e];
      MarkDirty(Record(e), now);
    }

    /** Names outside the taxonomy are ignored. */
    method RecordFailure(category: string, known: set<string>, now: int)
      requires Valid() && now >= clock
      modifies this
      ensures Valid()
      ensures counters == if category !in known then old(counters)
        else old(counters)[ERROR_PREFIX + category := CountOf(old(counters), ERROR_PREFIX + category) + 1]
      ensures category !in known ==> mutationCount == old(mutationCount) && file == old(file) && events == old(events)
    {
      if category !in known {
        return;
      }
      Increment(ERROR_PREFIX + category, 1, now);
    }

    method Flush(now: int)
      requires Valid() && now >= clock
      modifies this
      ensures Valid() && !dirty && counters == old(counters) && SavedCounters(file) == counters
      ensures SameFrom(events, old(events), clock) && SameFrom(events, SavedEvents(file), clock)
    {
      if dirty {
        PrunedIsSame(events, events, clock, now);
        Persist(now);
      }
      assert SavedEvents(file) + Recorded([]) == SavedEvents(file);
    }

    /** The counters and the totals of the window at the time of the snapshot. */
    method Snapshot(now: int, later: int) returns (shown: map<string, int>, total: nat, successful: nat)
      requires Valid() && clock <= now <= later
      modifies this
      ensures Valid() && !dirty && shown == counters == old(counters) && SavedCounters(file) == counters
      ensures events == Prune(old(events), later) && total == |events| && successful == Successes(events) <= total
    {
      ghost var was := events;
      if dirty {
        Persist(now);
        LaterPruneDecides(was, now, later);
      }
      PruneEvents(later);
      return counters, |events|, Successes(events);
    }
  }

  // ----- Restarts -----

  /** What a restart reads back. */
  function Reloaded(file: Option<Content>, now: int): (map<string, int>, seq<Execution>) {
    (SavedCounters(file), Prune(SavedEvents(file), now))
  }

  /** A process that dies loses exactly its unsaved mutations; what it had saved and they make up all it knew. */
  lemma CrashLosesTheUnsaved(m: MetricsCounter, now: int)
    requires m.Valid() && now >= m.clock
    ensures var (counters, events) := Reloaded(m.file, now);
      && |m.unsaved| < FLUSH_EVERY
      && m.counters == Counted(counters, m.unsaved)
      && Prune(m.events, now) == events + Prune(Recorded(m.unsaved), now)
      && (!m.dirty ==> m.counters == counters && Prune(m.events, now) == events)
  {
    PruneConcat(SavedEvents(m.file), Recorded(m.unsaved), now);
    assert Prune([], now) == [];
  }

  /** Everything in the window is recent, and everything recent in the history is in the window. */
  lemma {:induction false} WindowHoldsTheLastDay(events: seq<Execution>, now: int, e: Execution)
    ensures e in Prune(events, now) <==> e in events && e.at.Some? && e.at.value >= now - WINDOW
  {
    if events != [] {
      WindowHoldsTheLastDay(events[..|events| - 1], now, e);
      assert events == events[..|events| - 1] + [events[|events| - 1]];
    }
  }
}
