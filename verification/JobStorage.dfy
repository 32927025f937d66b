// File-backed job records: save, read, and the sweep that closes the records of dead or silent owners.
module JobStorage {
  import opened Common
  import opened JobRecords
  import opened JobNaming

  // What one file holds: a record, or text that does not parse as one.
  datatype FileContent = Readable(rec: JobRecord) | Unreadable

  type Files = map<string, FileContent>

  /** Every record lies in the file named from its own id. */
  predicate NamedFromIds(digest: Digest, files: Files) {
    forall n | n in files && files[n].Readable? :: n == FileName(digest, files[n].rec.jobId)
  }

  function Lookup(digest: Digest, files: Files, id: string): Option<JobRecord> {
    var name := FileName(digest, id);
    if name in files && files[name].Readable? then Some(files[name].rec) else None
  }

  function SweepContent(content: FileContent, now: int, alive: set<Pid>): FileContent {
    if content.Readable? then Readable(SweepRecord(content.rec, now, alive)) else content
  }

  function Sweeper(now: int, alive: set<Pid>): FileContent -> FileContent {
    content => SweepContent(content, now, alive)
  }

  predicate HoldsZombie(content: FileContent, now: int, alive: set<Pid>) {
    content.Readable? && IsZombie(content.rec, now, alive)
  }

  /** The directory after a sweep; the file of the empty id is the one a scan by stem cannot read. */
  function Swept(files: Files, now: int, alive: set<Pid>): Files {
    Touch(files, files.Keys - {SUFFIX}, Sweeper(now, alive))
  }

  function Zombies(files: Files, now: int, alive: set<Pid>): set<string> {
    set n | n in files && n != SUFFIX && HoldsZombie(files[n], now, alive)
  }

  lemma SweptContent(content: FileContent, now: int, alive: set<Pid>)
    ensures SweepContent(content, now, alive) == content <==> !HoldsZombie(content, now, alive)
    ensures !HoldsZombie(SweepContent(content, now, alive), now, alive)
  {}

  /** A sweep completes with an error exactly the zombies, keeps everything else of them, and touches no other record. */
  lemma SweepClosesExactlyTheZombies(files: Files, now: int, alive: set<Pid>, n: string)
    requires n in files
    ensures Swept(files, now, alive).Keys == files.Keys
    ensures n !in Zombies(files, now, alive) <==> Swept(files, now, alive)[n] == files[n]
    ensures n in Zombies(files, now, alive) ==>
      var before, after := files[n].rec, Swept(files, now, alive)[n];
      && after.Readable? && after.rec.completed && after.rec.completedAt == At(now)
      && after.rec.error == Some(if before.ownerPid.value in alive then HeartbeatExpired else ProcessExited)
      && after.rec.(completed := before.completed, completedAt := before.completedAt, error := before.error) == before
  {}

  /** A second sweep at the same instant finds nothing. */
  lemma SweepIsIdempotent(files: Files, now: int, alive: set<Pid>)
    ensures Zombies(Swept(files, now, alive), now, alive) == {}
    ensures Swept(Swept(files, now, alive), now, alive) == Swept(files, now, alive)
  {}

  /** A record spared by one sweep and not rewritten is closed by a later one exactly when it has become a zombie since. */
  lemma SweepsAccumulate(files: Files, t1: int, t2: int, alive: set<Pid>)
    requires t1 <= t2
    ensures Zombies(files, t1, alive) <= Zombies(files, t2, alive)
    ensures Swept(Swept(files, t1, alive), t2, alive).Keys == files.Keys
    ensures forall n | n in files ::
      Swept(Swept(files, t1, alive), t2, alive)[n] ==
        if n in Zombies(files, t1, alive) then Swept(files, t1, alive)[n] else Swept(files, t2, alive)[n]
  {}

  lemma HitIsAFreshZombie(files: Files, done: set<string>, target: string, now: int, alive: set<Pid>)
    requires target != SUFFIX
    ensures var current := Touch(files, done, Sweeper(now, alive));
      target in current && HoldsZombie(current[target], now, alive) <==> target in Zombies(files, now, alive) && target !in done
    ensures target in files ==>
      Sweeper(now, alive)(Sweeper(now, alive)(files[target])) == Sweeper(now, alive)(files[target])
  {
    if target in files {
      SweptContent(files[target], now, alive);
      SweptContent(SweepContent(files[target], now, alive), now, alive);
    }
  }

  lemma SavingAZombieIsATouch(files: Files, target: string, now: int, alive: set<Pid>)
    ensures if target in files && HoldsZombie(files[target], now, alive)
            then files[target := Readable(ZombieRecord(files[target].rec, now, alive))] == Touch(files, {target}, Sweeper(now, alive))
            else files == Touch(files, {target}, Sweeper(now, alive))
  {}

  /** A scan in progress: every record not yet visited is still listed under its own name. */
  ghost predicate Unvisited(files: Files, listing: set<string>, done: set<string>) {
    && SUFFIX !in done
    && (forall n | n in listing :: IsListed(n) && n in files)
    && (forall n | n in files && n != SUFFIX && files[n].Readable? :: n in listing || n in done)
  }

  lemma InitiallyUnvisited(digest: Digest, files: Files, listing: set<string>)
    requires NamedFromIds(digest, files) && listing == set n | n in files && IsListed(n)
    ensures Unvisited(files, listing, {})
  {
    forall n | n in files && files[n].Readable?
      ensures IsListed(n)
    {
      ScanTargetOfItsOwn(digest, files[n].rec.jobId);
    }
  }

  lemma UnvisitedStep(digest: Digest, files: Files, listing: set<string>, done: set<string>, name: string)
    requires NamedFromIds(digest, files) && Unvisited(files, listing, done) && name in listing
    ensures ScanTarget(digest, name) != SUFFIX
    ensures Unvisited(files, listing - {name}, done + {ScanTarget(digest, name)})
  {
    ScanTargetIsNamed(digest, name);
    if files[name].Readable? {
      ScanTargetOfItsOwn(digest, files[name].rec.jobId);
    }
  }

  ghost predicate Scanning(was: Files, files: Files, listing: set<string>, done: set<string>, count: nat, now: int, alive: set<Pid>) {
    && Unvisited(was, listing, done)
    && Visited(was, files, done, Zombies(was, now, alive), count, Sweeper(now, alive))
  }

  lemma ScanStep(digest: Digest, was: Files, files: Files, listing: set<string>, done: set<string>, count: nat,
                 name: string, now: int, alive: set<Pid>)
    requires NamedFromIds(digest, was) && name in listing
    requires Scanning(was, files, listing, done, count, now, alive)
    ensures var target := ScanTarget(digest, name);
      var hit := target in files && HoldsZombie(files[target], now, alive);
      Scanning(was, Touch(files, {target}, Sweeper(now, alive)), listing - {name}, done + {target},
               count + if hit then 1 else 0, now, alive)
  {
    var target := ScanTarget(digest, name);
    UnvisitedStep(digest, was, listing, done, name);
    HitIsAFreshZombie(was, done, target, now, alive);
    VisitOneMore(was, files, done, Zombies(was, now, alive), count, Sweeper(now, alive), target);
  }

  lemma ScanEnds(was: Files, files: Files, done: set<string>, count: nat, now: int, alive: set<Pid>)
    requires Scanning(was, files, {}, done, count, now, alive)
    ensures files == Swept(was, now, alive) && count == |Zombies(was, now, alive)|
  {
    var f := Sweeper(now, alive);
    forall n | n in was && (n in done <==> n !in was.Keys - {SUFFIX})
      ensures f(was[n]) == was[n]
    {
      assert was[n].Unreadable?;
    }
    VisitedAll(was, files, done, Zombies(was, now, alive), count, f, was.Keys - {SUFFIX});
  }

  class JobStorage {
    const digest: Digest
    var files: Files
    var reconciled: bool

    ghost predicate Valid()
      reads this
    {
      NamedFromIds(digest, files)
    }

    constructor (digest: Digest)
      ensures Valid() && files == map[] && !reconciled && this.digest == digest
    {
      this.digest := digest;
      files := map[];
      reconciled := false;
    }

    method SaveJob(rec: JobRecord)
      requires Valid()
      modifies this`files
      ensures Valid()
      ensures files == old(files)[FileName(digest, rec.jobId) := Readable(rec)]
    {
      files := files[FileName(digest, rec.jobId) := Readable(rec)];
    }

    method ReadJob(id: string) returns (r: Option<JobRecord>)
      requires Valid()
      ensures r == Lookup(digest, files, id)
      ensures r.Some? ==> FileName(digest, r.value.jobId) == FileName(digest, id)
    {
      var target := FileName(digest, id);
      if target !in files || files[target].Unreadable? {
        return None;
      }
      return Some(files[target].rec);
    }

    /** One listed file: read the record its stem names, and rewrite it through its own id when it is a zombie. */
    method SweepFile(name: string, now: int, alive: set<Pid>) returns (hit: bool)
      requires Valid()
      modifies this`files
      ensures Valid()
      ensures var target := ScanTarget(digest, name);
        && files == Touch(old(files), {target}, Sweeper(now, alive))
        && (hit <==> target in old(files) && HoldsZombie(old(files)[target], now, alive))
    {
      SavingAZombieIsATouch(files, ScanTarget(digest, name), now, alive);
      var rec := ReadJob(PathStem(name));
      hit := rec.Some? && IsZombie(rec.value, now, alive);
      if hit {
        SaveJob(ZombieRecord(rec.value, now, alive));
      }
    }

    method SweepNext(name: string, now: int, alive: set<Pid>,
                     ghost was: Files, ghost listing: set<string>, ghost done: set<string>, count: nat)
      returns (count': nat, ghost done': set<string>)
      requires Valid() && NamedFromIds(digest, was) && name in listing
      requires Scanning(was, files, listing, done, count, now, alive)
      modifies this`files
      ensures Valid()
      ensures Scanning(was, files, listing - {name}, done', count', now, alive)
    {
      ScanStep(digest, was, files, listing, done, count, name, now, alive);
      var hit := SweepFile(name, now, alive);
      count', done' := count + if hit then 1 else 0, done + {ScanTarget(digest, name)};
    }

    /** Scan the directory by stem, in whatever order, closing every zombie. */
    method ReconcileZombies(now: int, alive: set<Pid>) returns (count: nat)
      requires Valid()
      modifies this`files
      ensures Valid()
      ensures files == Swept(old(files), now, alive)
      ensures count == |Zombies(old(files), now, alive)|
    {
      count := 0;
      var listing := set n | n in files && IsListed(n);
      ghost var was, done: set<string> := files, {};
      InitiallyUnvisited(digest, files, listing);
      while listing != {}
        invariant Valid()
        invariant Scanning(was, files, listing, done, count, now, alive)
        decreases |listing|
      {
        var name :| name in listing;
        count, done := SweepNext(name, now, alive, was, listing, done, count);
        listing := listing - {name};
      }
      ScanEnds(was, files, done, count, now, alive);
    }

    /** The first read of a process sweeps; later ones only read. */
    method GetJob(id: string, now: int, alive: set<Pid>) returns (r: Option<JobRecord>)
      requires Valid()
      modifies this
      ensures Valid() && reconciled
      ensures files == if old(reconciled) then old(files) else Swept(old(files), now, alive)
      ensures r == Lookup(digest, files, id)
    {
      if !reconciled {
        var _ := ReconcileZombies(now, alive);
        reconciled := true;
      }
      r := ReadJob(id);
    }
  }
}
