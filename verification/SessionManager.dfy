// The pool file, and the manager's load, change and save cycle over it.
module SessionManager {
  import opened Common
  import opened SessionRecords

  datatype Pool = Pool(sessions: seq<Session>, currentIndex: int)

  // ----- The stored form -----

  // UnknownText: the legacy status, in any letter case.
  datatype StatusText = ActiveText | LimitedText | AuthRequiredText | UnknownText | BadText

  datatype StampText = NoStamp | Iso(at: int) | BadStamp

  datatype Entry = Entry(
    id: string,
    name: string,
    path: Path,
    status: StatusText,
    lastUsed: StampText,
    total: Option<int>,
    failed: Option<int>,
    created: StampText,
    reason: Option<Reason>)

  // Garbage: text that is no pool, or lacks a key it must have.
  datatype Content = Garbage | Content(entries: seq<Entry>, currentIndex: Option<int>)

  function ParseStamp(t: StampText): Option<int> {
    if t.Iso? then Some(t.at) else None
  }

  function DecodeEntry(e: Entry, now: int): Session {
    Session(e.id, e.name, e.path,
            match e.status { case ActiveText => Active case LimitedText => Limited case _ => AuthRequired },
            ParseStamp(e.lastUsed), e.total.GetOr(0), e.failed.GetOr(0), ParseStamp(e.created).GetOr(now), e.reason)
  }

  function EncodeEntry(x: Session): Entry {
    Entry(x.id, x.name, x.path,
          match x.status { case Active => ActiveText case Limited => LimitedText case AuthRequired => AuthRequiredText },
          if x.lastUsed.Some? then Iso(x.lastUsed.value) else NoStamp, Some(x.total), Some(x.failed), Iso(x.created), x.reason)
  }

  predicate IsCorrupt(c: Content) { c.Garbage? || exists e :: e in c.entries && e.status.BadText? }

  function Decode(c: Content, now: int): Pool
    requires !IsCorrupt(c)
  {
    Pool(seq(|c.entries|, i requires 0 <= i < |c.entries| => DecodeEntry(c.entries[i], now)), c.currentIndex.GetOr(0))
  }

  function Encode(p: Pool): Content {
    Content(seq(|p.sessions|, i requires 0 <= i < |p.sessions| => EncodeEntry(p.sessions[i])), Some(p.currentIndex))
  }

  /** Loading gives back what was saved, whenever it happens. */
  lemma LoadUndoesSave(p: Pool, now: int)
    ensures !IsCorrupt(Encode(p)) && Decode(Encode(p), now) == p
  {
    assert forall e | e in Encode(p).entries :: !e.status.BadText?;
    forall i | 0 <= i < |p.sessions|
      ensures DecodeEntry(EncodeEntry(p.sessions[i]), now) == p.sessions[i]
    {}
  }

  /** The pool a file stands for: an absent or corrupt one stands for the empty pool. */
  function Loaded(file: Option<Content>, now: int): Pool {
    if file.Some? && !IsCorrupt(file.value) then Decode(file.value, now) else Pool([], 0)
  }

  /** The file once a corrupt one has been moved away. */
  function Quarantined(file: Option<Content>): Option<Content> {
    if file.Some? && IsCorrupt(file.value) then None else file
  }

  /** The pool with discoveries, as every locked operation starts from it. */
  function Current(file: Option<Content>, profiles: seq<Path>, now: int): Pool {
    var p := Loaded(file, now);
    p.(sessions := Discovered(p.sessions, profiles, now))
  }

  /** The file a locked load leaves: rewritten when something was discovered. */
  function Settled(file: Option<Content>, profiles: seq<Path>, now: int): Option<Content> {
    var p := Current(file, profiles, now);
    if p == Loaded(file, now) then Quarantined(file) else Some(Encode(p))
  }

  /** The file once op has been applied to the pool with discoveries. */
  function Changed(file: Option<Content>, profiles: seq<Path>, now: int, op: Op): Option<Content> {
    var p := Current(file, profiles, now);
    Some(Encode(p.(sessions := Mutated(p.sessions, op, now))))
  }

  /** The entry k places on from the current index, taken round. */
  function Around(p: Pool, k: nat): Session
    requires k < |p.sessions|
  {
    p.sessions[(p.currentIndex + k) % |p.sessions|]
  }

  /** Round-robin: the first healthy entry from the current index on. */
  predicate IsNextHealthy(p: Pool, r: Option<Session>) {
    match r
    case None => forall x | x in p.sessions :: x.status != Active
    case Some(x) => exists k: nat | k < |p.sessions| :: IsFirstHealthy(p, k) && Around(p, k) == x
  }

  predicate IsFirstHealthy(p: Pool, k: nat)
    requires k < |p.sessions|
  {
    Around(p, k).status == Active && forall j: nat | j < k :: Around(p, j).status != Active
  }

  class SessionManager {
    var file: Option<Content>
    var corruptCopies: seq<Content>

    method LoadPoolFromFile(now: int) returns (pool: Pool)
      modifies this
      ensures pool == Loaded(old(file), now) && file == Quarantined(old(file))
      ensures corruptCopies == if file == old(file) then old(corruptCopies) else old(corruptCopies) + [old(file).value]
    {
      if file.None? {
        return Pool([], 0);
      }
      if IsCorrupt(file.value) {
        corruptCopies := corruptCopies + [file.value];
        file := None;
        return Pool([], 0);
      }
      return Decode(file.value, now);
    }

    static method NextSessionId(sessions: seq<Session>) returns (id: string)
      ensures id == NextId(sessions)
    {
      var maxNum: nat := 0;
      for i := 0 to |sessions|
        invariant maxNum + 1 == NextNumber(sessions[..i])
      {
        assert sessions[..i + 1][..i] == sessions[..i];
        var suffix := Suffix(sessions[i].id);
        if suffix.Some? && suffix.value > maxNum {
          maxNum := suffix.value;
        }
      }
      assert sessions[..|sessions|] == sessions;
      id := ID_PREFIX + Numeral(maxNum + 1);
    }

    static method RegisterDiscoveredProfiles(sessions: seq<Session>, profiles: seq<Path>, now: int)
      returns (all: seq<Session>, added: nat)
      ensures all == Discovered(sessions, profiles, now) && |all| == |sessions| + added
      ensures added == 0 <==> all == sessions
    {
      all, added := sessions, 0;
      var known := Known(sessions);
      for i := 0 to |profiles|
        invariant all == Discovered(sessions, profiles[..i], now)
        invariant known == Known(all) && |all| == |sessions| + added
      {
        assert profiles[..i + 1][..i] == profiles[..i];
        if profiles[i].resolved !in known {
          var id := NextSessionId(all);
          var x := Session(id, profiles[i].name, profiles[i], AuthRequired, None, 0, 0, now, None);
          OneMoreEntry(all, x);
          all, known, added := all + [x], known + {profiles[i].resolved}, added + 1;
        }
      }
      assert profiles[..|profiles|] == profiles;
      DiscoveryRegistersWhatIsUnknown(sessions, profiles, now);
    }

    method SavePool(pool: Pool)
      modifies this`file
      ensures file == Some(Encode(pool))
    {
      file := Some(Encode(pool));
    }

    method LoadPoolUnderLock(profiles: seq<Path>, now: int) returns (pool: Pool)
      modifies this
      ensures pool == Current(old(file), profiles, now) && file == Settled(old(file), profiles, now)
    {
      pool := LoadPoolFromFile(now);
      var all, added := RegisterDiscoveredProfiles(pool.sessions, profiles, now);
      pool := pool.(sessions := all);
      if added > 0 {
        SavePool(pool);
      }
    }

    /** The unlocked load: it takes the lock and loads again only when its first look discovers something. */
    method LoadPool(profiles: seq<Path>, now: int) returns (pool: Pool)
      modifies this
      ensures pool == Current(old(file), profiles, now) && file == Settled(old(file), profiles, now)
    {
      pool := LoadPoolFromFile(now);
      var _, added := RegisterDiscoveredProfiles(pool.sessions, profiles, now);
      if added > 0 {
        pool := LoadPoolUnderLock(profiles, now);
      }
    }

    method AddSession(name: string, path: Path, profiles: seq<Path>, now: int) returns (info: Session)
      modifies this
      ensures file == Changed(old(file), profiles, now, Put(name, path))
      ensures info in Loaded(file, now).sessions && info.name == name && info.path == path
    {
      var pool := LoadPoolUnderLock(profiles, now);
      var s := pool.sessions;
      for i := 0 to |s|
        invariant forall j | 0 <= j < i :: s[j].path != path
        invariant file == Settled(old(file), profiles, now)
      {
        if s[i].path == path {
          TargetIs(s, Put(name, path), i);
          pool := pool.(sessions := s[i := s[i].(name := name)]);
          SavePool(pool);
          LoadUndoesSave(pool, now);
          return pool.sessions[i];
        }
      }
      TargetIs(s, Put(name, path), |s|);
      var id := NextSessionId(s);
      info := Session(id, name, path, AuthRequired, None, 0, 0, now, None);
      pool := pool.(sessions := s + [info]);
      SavePool(pool);
      LoadUndoesSave(pool, now);
    }

    /** Clone a profile into the sessions directory and register it; a known target is returned as it stands. */
    method ImportBraveProfile(name: string, target: Path, profiles: seq<Path>, now: int) returns (info: Session, cloned: bool)
      modifies this
      ensures var p := Current(old(file), profiles, now);
        && (cloned <==> forall x | x in p.sessions :: x.path != target)
        && file == (if cloned then Changed(old(file), profiles, now, Import(name, target)) else Settled(old(file), profiles, now))
        && Mutated(p.sessions, Import(name, target), now) == (if cloned then p.sessions + [info] else p.sessions)
        && info.path == target && (!cloned ==> info in p.sessions)
    {
      var pool := LoadPoolUnderLock(profiles, now);
      var s := pool.sessions;
      for i := 0 to |s|
        invariant forall j | 0 <= j < i :: s[j].path != target
        invariant file == Settled(old(file), profiles, now)
      {
        if s[i].path == target {
          TargetIs(s, Import(name, target), i);
          return s[i], false;
        }
      }
      TargetIs(s, Import(name, target), |s|);
      var id := NextSessionId(s);
      info, cloned := Session(id, name, target, AuthRequired, None, 0, 0, now, None), true;
      SavePool(pool.(sessions := s + [info]));
    }

    /** Remove the first entry with an id, or with a name. When there is none, only discoveries are saved. */
    method Remove(op: Op, profiles: seq<Path>, now: int) returns (ok: bool)
      requires op.RemoveId? || op.RemoveName?
      modifies this
      ensures ok <==> exists x :: x in Current(old(file), profiles, now).sessions && Targets(op, x)
      ensures file == if ok then Changed(old(file), profiles, now, op) else Settled(old(file), profiles, now)
    {
      var pool := LoadPoolUnderLock(profiles, now);
      var s := pool.sessions;
      for i := 0 to |s|
        invariant forall j | 0 <= j < i :: !Targets(op, s[j])
        invariant file == Settled(old(file), profiles, now)
      {
        if Targets(op, s[i]) {
          TargetIs(s, op, i);
          SavePool(pool.(sessions := s[..i] + s[i + 1..]));
          return true;
        }
      }
      return false;
    }

    /** Set the status of the first entry with an id; the file is written in any case. */
    method MarkStatus(id: string, status: Status, reason: Option<Reason>, profiles: seq<Path>, now: int)
      modifies this
      ensures file == Changed(old(file), profiles, now, Mark(id, status, reason))
    {
      var pool := LoadPoolUnderLock(profiles, now);
      var s, r := pool.sessions, pool.sessions;
      var i := 0;
      while i < |s|
        invariant 0 <= i <= |s| && r == s
        invariant forall j | 0 <= j < i :: s[j].id != id
      {
        if s[i].id == id {
          r := s[i := s[i].(status := status, reason := reason)];
          break;
        }
        i := i + 1;
      }
      TargetIs(s, Mark(id, status, reason), i);
      SavePool(pool.(sessions := r));
    }

    method MarkUsed(id: string, success: bool, profiles: seq<Path>, now: int)
      modifies this
      ensures file == Changed(old(file), profiles, now, Use(id, success))
    {
      var pool := LoadPoolUnderLock(profiles, now);
      var s := pool.sessions;
      SavePool(pool.(sessions :=
        seq(|s|, i requires 0 <= i < |s| => if s[i].id == id then WithUsage(s[i], success, now) else s[i])));
    }

    /** The next healthy session in round-robin order. The index moves on in the loaded copy only. */
    method NextHealthySession(profiles: seq<Path>, now: int) returns (r: Option<Session>)
      modifies this
      ensures IsNextHealthy(Current(old(file), profiles, now), r)
      ensures file == Settled(old(file), profiles, now)
    {
      var pool := LoadPool(profiles, now);
      for k := 0 to |pool.sessions|
        invariant forall j: nat | j < k :: Around(pool, j).status != Active
        invariant file == Settled(old(file), profiles, now)
      {
        r := Some(Around(pool, k));
        if r.value.status == Active {
          assert IsFirstHealthy(pool, k);
          return;
        }
      }
      AllAround(pool);
      return None;
    }
  }

  lemma AllAround(p: Pool)
    requires forall j: nat | j < |p.sessions| :: Around(p, j).status != Active
    ensures forall x | x in p.sessions :: x.status != Active
  {
    forall i | 0 <= i < |p.sessions|
      ensures p.sessions[i].status != Active
    {
      EveryPlaceIsVisited(p.currentIndex, |p.sessions|, i);
      assert Around(p, (i - p.currentIndex) % |p.sessions|) == p.sessions[i];
    }
  }

  /** The n places from any start on, taken round, are all the places. */
  lemma EveryPlaceIsVisited(start: int, n: nat, i: nat)
    requires i < n
    ensures var k := (i - start) % n; 0 <= k < n && (start + k) % n == i
  {
    var k, q := (i - start) % n, (i - start) / n;
    var a := start + k;
    var d := a / n + q;
    assert i - start == q * n + k && a == (a / n) * n + a % n;
    assert d * n == (a / n) * n + q * n;
    SmallMultiple(d, n);
  }

  lemma SmallMultiple(d: int, n: int)
    requires -n < d * n < n
    ensures d == 0
  {
    if d > 0 {
      AtLeastOnce(d, n);
    } else if d < 0 {
      assert (-d) * n == -(d * n);
      AtLeastOnce(-d, n);
    }
  }

  lemma AtLeastOnce(d: int, n: int)
    requires d > 0 && n >= 0
    ensures d * n >= n
  {
    var e: nat, m: nat := d - 1, n;
    assert d * n == e * m + m;
    assert e * m >= 0;
  }

  /** The same entry, but perhaps for a creation stamp that could not be read and was made up. */
  predicate SameEntry(x: Session, y: Session) { x == y.(created := x.created) }

  predicate SameEntries(s: seq<Session>, t: seq<Session>) {
    |s| == |t| && forall i | 0 <= i < |s| :: SameEntry(s[i], t[i])
  }

  /** A file that a load has settled loads as what the load returned, at any time. */
  lemma SettledLoads(file: Option<Content>, profiles: seq<Path>, now: int, later: int)
    ensures var p, q := Current(file, profiles, now), Loaded(Settled(file, profiles, now), later);
      SameEntries(q.sessions, p.sessions) && q.currentIndex == p.currentIndex
  {
    LoadUndoesSave(Current(file, profiles, now), later);
  }

  lemma SamePlaces(p: Pool, q: Pool, k: nat)
    requires SameEntries(q.sessions, p.sessions) && q.currentIndex == p.currentIndex && k < |p.sessions|
    ensures SameEntry(Around(q, k), Around(p, k))
    ensures IsFirstHealthy(p, k) <==> IsFirstHealthy(q, k)
  {
    assert forall j: nat | j < |p.sessions| :: SameEntry(Around(q, j), Around(p, j));
    assert forall j: nat | j < k :: Around(q, j).status == Around(p, j).status;
  }

  /** Two calls in a row, the second one without new profiles, answer with the same session: the index that the first
      call moved on was never saved. */
  lemma RoundRobinStandsStill(file: Option<Content>, profiles: seq<Path>, now: int, a: Option<Session>,
                              laterProfiles: seq<Path>, later: int, b: Option<Session>)
    requires IsNextHealthy(Current(file, profiles, now), a)
    requires IsNextHealthy(Current(Settled(file, profiles, now), laterProfiles, later), b)
    requires Resolved(laterProfiles) <= Known(Current(file, profiles, now).sessions)
    ensures a.Some? <==> b.Some?
    ensures a.Some? && b.Some? ==> SameEntry(b.value, a.value)
  {
    var p, q := Current(file, profiles, now), Loaded(Settled(file, profiles, now), later);
    SettledLoads(file, profiles, now, later);
    SameDirs(q.sessions, p.sessions);
    DiscoveryIsQuietWhenAllIsKnown(q.sessions, laterProfiles, later);
    SamePicks(p, q, a, b);
  }

  lemma SamePicks(p: Pool, q: Pool, a: Option<Session>, b: Option<Session>)
    requires SameEntries(q.sessions, p.sessions) && q.currentIndex == p.currentIndex
    requires IsNextHealthy(p, a) && IsNextHealthy(q, b)
    ensures a.Some? <==> b.Some?
    ensures a.Some? && b.Some? ==> SameEntry(b.value, a.value)
  {
    if a.Some? {
      var k: nat :| k < |p.sessions| && IsFirstHealthy(p, k) && Around(p, k) == a.value;
      SamePlaces(p, q, k);
      assert Around(q, k) in q.sessions;
      if b.Some? {
        var l: nat :| l < |q.sessions| && IsFirstHealthy(q, l) && Around(q, l) == b.value;
        assert k == l;
      }
    }
  }

  lemma SameDirs(s: seq<Session>, t: seq<Session>)
    requires SameEntries(s, t)
    ensures Known(s) == Known(t)
  {
    forall x | x in s
      ensures x.path.resolved in Known(t)
    {
      var i :| 0 <= i < |s| && s[i] == x;
      assert t[i] in t && SameEntry(s[i], t[i]);
    }
    forall y | y in t
      ensures y.path.resolved in Known(s)
    {
      var i :| 0 <= i < |t| && t[i] == y;
      assert s[i] in s && SameEntry(s[i], t[i]);
    }
  }

  method PickTwice(manager: SessionManager, profiles: seq<Path>, now: int, later: int) returns (a: Option<Session>, b: Option<Session>)
    modifies manager
    ensures (a.Some? <==> b.Some?) && (a.Some? && b.Some? ==> a.value.id == b.value.id)
  {
    ghost var file := manager.file;
    a := manager.NextHealthySession(profiles, now);
    b := manager.NextHealthySession(profiles, later);
    DiscoveryRegistersWhatIsUnknown(Loaded(file, now).sessions, profiles, now);
    RoundRobinStandsStill(file, profiles, now, a, profiles, later, b);
  }

  /** A load is its own fixed point: what it leaves on disk loads as what it returned, and is not rewritten again. */
  lemma LoadSettles(file: Option<Content>, profiles: seq<Path>, now: int)
    ensures var after := Settled(file, profiles, now);
      Current(after, profiles, now) == Current(file, profiles, now) && Settled(after, profiles, now) == after
  {
    var p := Current(file, profiles, now);
    LoadUndoesSave(p, now);
    DiscoveryIsIdempotent(Loaded(file, now).sessions, profiles, now, now);
    assert Loaded(Quarantined(file), now) == Loaded(file, now);
  }

  /** What an operation saved is what the next load, at any time, starts from. */
  lemma ChangesAreLoaded(file: Option<Content>, profiles: seq<Path>, now: int, op: Op, later: int)
    ensures Loaded(Changed(file, profiles, now, op), later).sessions
         == Mutated(Discovered(Loaded(file, now).sessions, profiles, now), op, now)
  {
    var p := Current(file, profiles, now);
    LoadUndoesSave(p.(sessions := Mutated(p.sessions, op, now)), later);
  }
}
