// Session entries, fresh session ids, and the pool changes that every manager operation makes.
module SessionRecords {
  import opened Common

  // A path as spelled, with its last component and the directory it resolves to.
  datatype Path = Path(spelling: nat, name: string, resolved: nat)

  datatype Status = Active | Limited | AuthRequired

  datatype Reason = Quota | Expired | LaunchFailure | Network | Timeout | OtherReason(text: string)

  datatype Session = Session(
    id: string,
    name: string,
    path: Path,
    status: Status,
    lastUsed: Option<int>,
    total: int,
    failed: int,
    created: int,
    reason: Option<Reason>)

  // ----- Decimal numerals -----

  predicate IsDigit(c: char) { '0' <= c <= '9' }

  predicate IsNumeral(s: string) { s != [] && forall i | 0 <= i < |s| :: IsDigit(s[i]) }

  function Value(s: string): nat
    requires forall i | 0 <= i < |s| :: IsDigit(s[i])
  {
    if s == [] then 0
    else
      assert IsDigit(s[|s| - 1]);
      Value(s[..|s| - 1]) * 10 + (s[|s| - 1] as int - '0' as int)
  }

  function Numeral(n: nat): (s: string)
    ensures IsNumeral(s) && Value(s) == n
  {
    var digit := ['0' + (n % 10) as char];
    if n < 10 then digit else Numeral(n / 10) + digit
  }

  // ----- Session ids -----

  const ID_PREFIX := "session_"

  /** The number in an id of the generated shape. */
  function Suffix(id: string): (r: Option<nat>)
    ensures r.Some? <==> ID_PREFIX <= id && IsNumeral(id[|ID_PREFIX|..])
  {
    if ID_PREFIX <= id && IsNumeral(id[|ID_PREFIX|..]) then Some(Value(id[|ID_PREFIX|..])) else None
  }

  /** One more than every number in use. */
  function NextNumber(sessions: seq<Session>): (n: nat)
    ensures n >= 1
    ensures forall s | s in sessions && Suffix(s.id).Some? :: Suffix(s.id).value < n
    ensures n > 1 ==> exists s :: s in sessions && Suffix(s.id) == Some(n - 1)
  {
    if sessions == [] then 1
    else
      var n := NextNumber(sessions[..|sessions| - 1]);
      var last := sessions[|sessions| - 1];
      match Suffix(last.id)
      case Some(m) => if m >= n then assert last in sessions; m + 1 else n
      case None => n
  }

  function NextId(sessions: seq<Session>): string { ID_PREFIX + Numeral(NextNumber(sessions)) }

  lemma NextIdIsFresh(sessions: seq<Session>)
    ensures Suffix(NextId(sessions)) == Some(NextNumber(sessions))
    ensures forall s | s in sessions :: s.id != NextId(sessions)
  {
    assert NextId(sessions)[|ID_PREFIX|..] == Numeral(NextNumber(sessions));
  }

  // ----- The pool as a list of entries -----

  predicate UniqueIds(s: seq<Session>) { forall i, j | 0 <= i < j < |s| :: s[i].id != s[j].id }

  predicate UniqueDirs(s: seq<Session>) { forall i, j | 0 <= i < j < |s| :: s[i].path.resolved != s[j].path.resolved }

  function Known(s: seq<Session>): set<nat> { set x | x in s :: x.path.resolved }

  function Resolved(profiles: seq<Path>): set<nat> { set p | p in profiles :: p.resolved }

  function NewSession(s: seq<Session>, name: string, path: Path, now: int): Session {
    Session(NextId(s), name, path, AuthRequired, None, 0, 0, now, None)
  }

  /** The entries after every profile directory that no entry resolves to has been registered. */
  function Discovered(s: seq<Session>, profiles: seq<Path>, now: int): seq<Session> {
    if profiles == [] then s
    else
      var d := Discovered(s, profiles[..|profiles| - 1], now);
      var p := profiles[|profiles| - 1];
      if p.resolved in Known(d) then d else d + [NewSession(d, p.name, p, now)]
  }

  // What a manager operation does to the entries once discoveries are in.
  datatype Op =
    | Put(name: string, path: Path)                            // add_session, register_brave_profile
    | Import(name: string, path: Path)                         // import_brave_profile
    | RemoveId(id: string)
    | RemoveName(name: string)
    | Mark(id: string, status: Status, reason: Option<Reason>) // mark_limited, mark_healthy, mark_auth_required
    | Use(id: string, success: bool)

  predicate Targets(op: Op, x: Session) {
    match op
    case Put(_, path) => x.path == path
    case Import(_, path) => x.path == path
    case RemoveId(id) => x.id == id
    case RemoveName(name) => x.name == name
    case Mark(id, _, _) => x.id == id
    case Use(id, _) => x.id == id
  }

  /** The place of the first entry the operation is about; the length when there is none. */
  function Target(s: seq<Session>, op: Op): (i: nat)
    ensures i <= |s| && (i < |s| ==> Targets(op, s[i]))
    ensures forall j | 0 <= j < i :: !Targets(op, s[j])
  {
    if s == [] then 0
    else
      var i := Target(s[..|s| - 1], op);
      if i < |s| - 1 || Targets(op, s[|s| - 1]) then i else |s|
  }

  lemma TargetIs(s: seq<Session>, op: Op, i: nat)
    requires i <= |s| && (i < |s| ==> Targets(op, s[i]))
    requires forall j | 0 <= j < i :: !Targets(op, s[j])
    ensures Target(s, op) == i
  {}

  function WithUsage(x: Session, success: bool, now: int): Session {
    x.(lastUsed := Some(now), total := x.total + 1, failed := x.failed + if success then 0 else 1)
  }

  function Mutated(s: seq<Session>, op: Op, now: int): seq<Session> {
    var i := Target(s, op);
    match op
    case Put(name, path) => if i < |s| then s[i := s[i].(name := name)] else s + [NewSession(s, name, path, now)]
    case Import(name, path) => if i < |s| then s else s + [NewSession(s, name, path, now)]
    case RemoveId(_) => if i < |s| then s[..i] + s[i + 1..] else s
    case RemoveName(_) => if i < |s| then s[..i] + s[i + 1..] else s
    case Mark(_, status, reason) => if i < |s| then s[i := s[i].(status := status, reason := reason)] else s
    case Use(id, success) =>
      seq(|s|, j requires 0 <= j < |s| => if s[j].id == id then WithUsage(s[j], success, now) else s[j])
  }

  // ----- Discovery -----

  /** Discovery leaves every entry in place, and makes known exactly the directories found. */
  lemma {:induction false} DiscoveryRegistersWhatIsUnknown(s: seq<Session>, profiles: seq<Path>, now: int)
    ensures s <= Discovered(s, profiles, now)
    ensures Known(Discovered(s, profiles, now)) == Known(s) + Resolved(profiles)
  {
    if profiles == [] {
      assert Resolved(profiles) == {};
    } else {
      var front, p := profiles[..|profiles| - 1], profiles[|profiles| - 1];
      DiscoveryRegistersWhatIsUnknown(s, front, now);
      OneMorePath(front, p);
      assert profiles == front + [p];
      DiscoveryStep(s, Discovered(s, front, now), p, now);
    }
  }

  lemma DiscoveryStep(s: seq<Session>, d: seq<Session>, p: Path, now: int)
    requires s <= d
    ensures var e := if p.resolved in Known(d) then d else d + [NewSession(d, p.name, p, now)];
      s <= e && Known(e) == Known(d) + {p.resolved}
  {
    OneMoreEntry(d, NewSession(d, p.name, p, now));
  }

  /** Nothing is registered exactly when every directory is known. */
  lemma {:induction false} DiscoveryIsQuietWhenAllIsKnown(s: seq<Session>, profiles: seq<Path>, now: int)
    ensures Discovered(s, profiles, now) == s <==> Resolved(profiles) <= Known(s)
  {
    DiscoveryRegistersWhatIsUnknown(s, profiles, now);
    if profiles != [] && Resolved(profiles) <= Known(s) {
      var front, p := profiles[..|profiles| - 1], profiles[|profiles| - 1];
      assert p in profiles && Resolved(front) <= Resolved(profiles);
      DiscoveryIsQuietWhenAllIsKnown(s, front, now);
    }
  }

  lemma OneMoreEntry(s: seq<Session>, x: Session)
    ensures Known(s + [x]) == Known(s) + {x.path.resolved}
  {}

  lemma OneMorePath(profiles: seq<Path>, p: Path)
    ensures Resolved(profiles + [p]) == Resolved(profiles) + {p.resolved}
  {}

  lemma DiscoveryIsIdempotent(s: seq<Session>, profiles: seq<Path>, now: int, later: int)
    ensures Discovered(Discovered(s, profiles, now), profiles, later) == Discovered(s, profiles, now)
  {
    DiscoveryRegistersWhatIsUnknown(s, profiles, now);
    DiscoveryIsQuietWhenAllIsKnown(Discovered(s, profiles, now), profiles, later);
  }

  lemma FreshEntryKeepsIdsUnique(s: seq<Session>, name: string, path: Path, now: int)
    requires UniqueIds(s)
    ensures UniqueIds(s + [NewSession(s, name, path, now)])
  {
    NextIdIsFresh(s);
  }

  lemma NewDirKeepsDirsUnique(s: seq<Session>, x: Session)
    requires UniqueDirs(s) && x.path.resolved !in Known(s)
    ensures UniqueDirs(s + [x])
  {}

  lemma {:induction false} DiscoveryKeepsUniqueness(s: seq<Session>, profiles: seq<Path>, now: int)
    ensures UniqueIds(s) ==> UniqueIds(Discovered(s, profiles, now))
    ensures UniqueDirs(s) ==> UniqueDirs(Discovered(s, profiles, now))
  {
    if profiles != [] {
      var p := profiles[|profiles| - 1];
      var d := Discovered(s, profiles[..|profiles| - 1], now);
      DiscoveryKeepsUniqueness(s, profiles[..|profiles| - 1], now);
      if UniqueIds(s) {
        FreshEntryKeepsIdsUnique(d, p.name, p, now);
      }
      if UniqueDirs(s) && p.resolved !in Known(d) {
        NewDirKeepsDirsUnique(d, NewSession(d, p.name, p, now));
      }
    }
  }

  // ----- Operations -----

  /** No operation on a pool with unique ids ends in a pool with two entries of one id. */
  lemma OperationsKeepIdsUnique(s: seq<Session>, op: Op, now: int)
    requires UniqueIds(s)
    ensures UniqueIds(Mutated(s, op, now))
  {
    match op
    case Put(name, path) => FreshEntryKeepsIdsUnique(s, name, path, now);
    case Import(name, path) => FreshEntryKeepsIdsUnique(s, name, path, now);
    case _ =>
  }

  /** A new entry: never used, to be logged in to first, and under an id of its own. */
  predicate AwaitsLogin(s: seq<Session>, x: Session, name: string, path: Path, now: int) {
    && x.name == name && x.path == path && x.status == AuthRequired && x.reason.None?
    && x.lastUsed.None? && x.total == 0 && x.failed == 0 && x.created == now
    && forall y | y in s :: y.id != x.id
  }

  /** Entry i is the first one with the path, or there is none. */
  predicate IsFirstAt(s: seq<Session>, path: Path, i: nat) {
    i <= |s| && (i < |s| ==> s[i].path == path) && forall j | 0 <= j < i :: s[j].path != path
  }

  /** Adding renames the first entry with the path, importing leaves it as it is; without one, either appends a new entry. */
  lemma AdditionsRenameOrAppend(s: seq<Session>, name: string, path: Path, now: int, i: nat)
    requires IsFirstAt(s, path, i)
    ensures i < |s| ==> Mutated(s, Put(name, path), now) == s[i := s[i].(name := name)]
    ensures i < |s| ==> Mutated(s, Import(name, path), now) == s
    ensures i == |s| ==>
      exists x :: AwaitsLogin(s, x, name, path, now)
        && Mutated(s, Put(name, path), now) == s + [x] && Mutated(s, Import(name, path), now) == s + [x]
  {
    TargetIs(s, Put(name, path), i);
    TargetIs(s, Import(name, path), i);
    NextIdIsFresh(s);
    assert AwaitsLogin(s, NewSession(s, name, path, now), name, path, now);
  }

  /** A removal takes out the first entry with the id, or with the name, and nothing else. */
  lemma RemovalsDropTheFirst(s: seq<Session>, op: Op, now: int, i: nat)
    requires i <= |s| && (op.RemoveId? || op.RemoveName?)
    requires op.RemoveId? ==> (i < |s| ==> s[i].id == op.id) && forall j | 0 <= j < i :: s[j].id != op.id
    requires op.RemoveName? ==> (i < |s| ==> s[i].name == op.name) && forall j | 0 <= j < i :: s[j].name != op.name
    ensures Mutated(s, op, now) == if i < |s| then s[..i] + s[i + 1..] else s
  {
    TargetIs(s, op, i);
  }

  /** Every entry that discovery appends is one of the directories found, under its own name, and awaits a login. */
  lemma {:induction false} DiscoveredEntriesAwaitLogin(s: seq<Session>, profiles: seq<Path>, now: int, i: nat)
    requires |s| <= i < |Discovered(s, profiles, now)|
    ensures var x := Discovered(s, profiles, now)[i];
      x.path in profiles && x.path.resolved !in Known(s) && AwaitsLogin(s, x, x.path.name, x.path, now)
  {
    var front, p := profiles[..|profiles| - 1], profiles[|profiles| - 1];
    var d := Discovered(s, front, now);
    DiscoveryRegistersWhatIsUnknown(s, front, now);
    if i < |d| {
      DiscoveredEntriesAwaitLogin(s, front, now, i);
    } else {
      NextIdIsFresh(d);
      assert forall y | y in s :: y in d;
    }
  }

  predicate MayAlias(s: seq<Session>, op: Op) {
    (op.Put? || op.Import?) && op.path.resolved in Known(s) && forall x | x in s :: x.path != op.path
  }

  /** Entries keep pointing at different directories exactly unless a path is added under a new spelling of a known directory. */
  lemma OperationsKeepDirsUnique(s: seq<Session>, op: Op, now: int)
    requires UniqueDirs(s)
    ensures UniqueDirs(Mutated(s, op, now)) <==> !MayAlias(s, op)
  {
    var r := Mutated(s, op, now);
    if op.Put? || op.Import? {
      if MayAlias(s, op) {
        var x :| x in s && x.path.resolved == op.path.resolved;
        var i :| 0 <= i < |s| && s[i] == x;
        assert r[i] == x && r[|s|].path.resolved == op.path.resolved;
      } else if Target(s, op) == |s| {
        assert op.path.resolved !in Known(s);
        forall i, j | 0 <= i < j < |r|
          ensures r[i].path.resolved != r[j].path.resolved
        {
          if j == |s| {
            assert s[i] in s;
          }
        }
      }
    }
  }

  /** Adding the same directory under a second spelling yields two entries for it. */
  lemma SecondSpellingIsRegisteredTwice(name: string, now: int)
    ensures var s := Mutated([], Put(name, Path(0, name, 7)), now);
      UniqueDirs(s) && |Mutated(s, Put(name, Path(1, name, 7)), now)| == 2
      && !UniqueDirs(Mutated(s, Put(name, Path(1, name, 7)), now))
  {
    var s := Mutated([], Put(name, Path(0, name, 7)), now);
    OperationsKeepDirsUnique(s, Put(name, Path(1, name, 7)), now);
    assert s[0] in s;
  }

  /** In a pool with unique ids a status change or a use changes the fields of its session only, and no entry's place. */
  lemma UpdatesTouchOnlyTheirSession(s: seq<Session>, op: Op, now: int, k: nat)
    requires UniqueIds(s) && (op.Mark? || op.Use?) && k < |s|
    ensures |Mutated(s, op, now)| == |s|
    ensures var x, y := s[k], Mutated(s, op, now)[k];
      && (x.id != op.id ==> y == x)
      && (x.id == op.id && op.Mark? ==> y == x.(status := op.status, reason := op.reason))
      && (x.id == op.id && op.Use? ==>
            && y.total == x.total + 1 && y.failed == x.failed + (if op.success then 0 else 1) && y.lastUsed == Some(now)
            && y == x.(total := y.total, failed := y.failed, lastUsed := y.lastUsed))
  {
    var i := Target(s, op);
    if i < |s| && i != k {
      assert s[i].id != s[k].id;
    }
  }

  /** A removed session whose profile directory is still there is registered again by the next load, as a new session. */
  lemma RemovedProfileComesBack(s: seq<Session>, k: nat, profiles: seq<Path>, now: int)
    requires UniqueIds(s) && UniqueDirs(s) && k < |s| && s[k].path.resolved in Resolved(profiles)
    ensures var r := Mutated(s, RemoveId(s[k].id), now);
      && s[k].path.resolved !in Known(r)
      && exists x :: x in Discovered(r, profiles, now) && x.path.resolved == s[k].path.resolved && x !in r
  {
    var r := Mutated(s, RemoveId(s[k].id), now);
    var i := Target(s, RemoveId(s[k].id));
    assert i == k;
    assert forall j | 0 <= j < |r| :: r[j] == if j < k then s[j] else s[j + 1];
    DiscoveryRegistersWhatIsUnknown(r, profiles, now);
    assert s[k].path.resolved in Known(Discovered(r, profiles, now));
  }
}
