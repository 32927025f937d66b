// The two dependency walks of the export scripts: the one bounded in hops, and the worklist.
module DependencyWalks {
  import opened Common

  // A file of the workspace: whether it is Python source, a package's __init__, and excluded from exports.
  datatype File = File(id: nat, isPy: bool, isInit: bool, excluded: bool)

  // ----- The bounded walk -----

  type Imports = File -> set<File>   // what a file's imports resolve to; nothing for a file that cannot be read

  /** The files at most k import hops away. */
  function Within(imports: Imports, initial: set<File>, k: nat): set<File> {
    if k == 0 then initial else OneHopOn(imports, Within(imports, initial, k - 1))
  }

  function OneHopOn(imports: Imports, near: set<File>): set<File> {
    near + set f, g | f in near && g in imports(f) :: g
  }

  /** A chain of imports from an initial file. */
  ghost predicate IsChain(imports: Imports, initial: set<File>, chain: seq<File>) {
    && chain != [] && chain[0] in initial
    && forall i | 0 <= i < |chain| - 1 :: chain[i + 1] in imports(chain[i])
  }

  method ResolveTransitiveDependencies(imports: Imports, initial: set<File>, maxDepth: int) returns (resolved: set<File>)
    ensures resolved == Within(imports, initial, if maxDepth > 0 then maxDepth else 0)
  {
    resolved := initial;
    var frontier := initial;
    for k := 0 to if maxDepth > 0 then maxDepth else 0
      invariant resolved == Within(imports, initial, k)
      invariant IsFrontier(imports, initial, k, frontier)
    {
      if frontier == {} {
        HopAddsNothing(imports, resolved);
        NothingBeyond(imports, initial, k, if maxDepth > 0 then maxDepth else 0);
        return;
      }
      resolved, frontier := NextHop(imports, resolved, frontier);
      HopIsNext(imports, initial, k, frontier);
    }
  }

  /** What is not in the frontier has its imports within reach already. */
  ghost predicate IsFrontier(imports: Imports, initial: set<File>, k: nat, frontier: set<File>) {
    var near := Within(imports, initial, k);
    frontier <= near && forall f | f in near && f !in frontier :: imports(f) <= near
  }

  method NextHop(imports: Imports, before: set<File>, frontier: set<File>) returns (resolved: set<File>, next: set<File>)
    requires frontier <= before && forall f | f in before - frontier :: imports(f) <= before
    ensures resolved == OneHopOn(imports, before)
    ensures next == resolved - before
  {
    resolved, next := before, {};
    var todo := frontier;
    while todo != {}
      invariant todo <= frontier
      invariant resolved == before + set f, g | f in before - todo && g in imports(f) :: g
      invariant next == resolved - before
    {
      var f :| f in todo;
      var deps := imports(f);
      while deps != {}
        invariant deps <= imports(f)
        invariant resolved == before + (set e, g | e in before - todo && g in imports(e) :: g) + (imports(f) - deps)
        invariant next == resolved - before
      {
        var nf :| nf in deps;
        if nf !in resolved {
          resolved := resolved + {nf};
          next := next + {nf};
        }
        deps := deps - {nf};
      }
      todo := todo - {f};
    }
  }

  lemma HopIsNext(imports: Imports, initial: set<File>, k: nat, next: set<File>)
    requires next == Within(imports, initial, k + 1) - Within(imports, initial, k)
    ensures IsFrontier(imports, initial, k + 1, next)
  {}

  function Iterated(hop: set<File> -> set<File>, s: set<File>, n: nat): set<File> {
    if n == 0 then s else hop(Iterated(hop, s, n - 1))
  }

  lemma {:induction false} IterationStops(hop: set<File> -> set<File>, s: set<File>, k: nat, n: nat)
    requires k <= n && hop(Iterated(hop, s, k)) == Iterated(hop, s, k)
    ensures Iterated(hop, s, n) == Iterated(hop, s, k)
    decreases n
  {
    if k < n {
      IterationStops(hop, s, k, n - 1);
    }
  }

  function Hop(imports: Imports): set<File> -> set<File> { near => OneHopOn(imports, near) }

  lemma {:induction false} WithinIsIterated(imports: Imports, initial: set<File>, n: nat)
    ensures Within(imports, initial, n) == Iterated(Hop(imports), initial, n)
  {
    if n > 0 {
      WithinIsIterated(imports, initial, n - 1);
      WithinHops(imports, initial, n);
    }
  }

  lemma WithinHops(imports: Imports, initial: set<File>, n: nat)
    requires n > 0
    ensures Within(imports, initial, n) == Hop(imports)(Within(imports, initial, n - 1))
  {}

  lemma NothingBeyond(imports: Imports, initial: set<File>, k: nat, n: nat)
    requires k <= n && Hop(imports)(Within(imports, initial, k)) == Within(imports, initial, k)
    ensures Within(imports, initial, n) == Within(imports, initial, k)
  {
    WithinIsIterated(imports, initial, k);
    WithinIsIterated(imports, initial, n);
    IterationStops(Hop(imports), initial, k, n);
  }

  lemma HopAddsNothing(imports: Imports, near: set<File>)
    requires forall f | f in near :: imports(f) <= near
    ensures OneHopOn(imports, near) == near
  {}

  /** A file is returned exactly when a chain of at most k imports leads to it from an initial file. */
  lemma {:induction false} WithinMeansAShortChain(imports: Imports, initial: set<File>, k: nat, f: File)
    ensures f in Within(imports, initial, k) <==>
      exists chain :: IsChain(imports, initial, chain) && |chain| <= k + 1 && chain[|chain| - 1] == f
  {
    if f in Within(imports, initial, k) {
      var chain := ChainTo(imports, initial, k, f);
    }
    if exists chain :: IsChain(imports, initial, chain) && |chain| <= k + 1 && chain[|chain| - 1] == f {
      var chain :| IsChain(imports, initial, chain) && |chain| <= k + 1 && chain[|chain| - 1] == f;
      ChainStaysWithin(imports, initial, chain, k);
    }
  }

  lemma {:induction false} ChainTo(imports: Imports, initial: set<File>, k: nat, f: File) returns (chain: seq<File>)
    requires f in Within(imports, initial, k)
    ensures IsChain(imports, initial, chain) && |chain| <= k + 1 && chain[|chain| - 1] == f
  {
    if k == 0 {
      chain := [f];
    } else if f in Within(imports, initial, k - 1) {
      chain := ChainTo(imports, initial, k - 1, f);
    } else {
      var e :| e in Within(imports, initial, k - 1) && f in imports(e);
      var front := ChainTo(imports, initial, k - 1, e);
      chain := front + [f];
    }
  }

  lemma {:induction false} ChainStaysWithin(imports: Imports, initial: set<File>, chain: seq<File>, k: nat)
    requires IsChain(imports, initial, chain) && |chain| <= k + 1
    ensures chain[|chain| - 1] in Within(imports, initial, k)
    decreases k
  {
    if |chain| == 1 {
      if k > 0 {
        ChainStaysWithin(imports, initial, chain, k - 1);
      }
    } else {
      var n := |chain| - 1;
      ChainStaysWithin(imports, initial, chain[..n], k - 1);
      assert chain[n] in imports(chain[..n][n - 1]);
    }
  }

  // ----- The worklist -----

  // One import statement: whether it is a relative import of several packages (then it is skipped), whether it is a
  // wildcard, the files it resolves to, and the files its symbols alone lead to.
  datatype Import = Import(isBarrel: bool, isWildcard: bool, resolved: set<File>, bySymbol: set<File>)

  type Sources = File -> seq<Import>

  /** The files an import adds: of a wildcard's packages only what its symbols lead to. */
  function Adds(i: Import): set<File> {
    if i.isBarrel then {}
    else if i.isWildcard then (set f | f in i.resolved && !f.isInit) + i.bySymbol
    else i.resolved
  }

  /** The package files an import resolves to; they are not to be scanned from then on. */
  function Packages(i: Import): set<File> {
    if i.isBarrel then {} else set f | f in i.resolved && f.isInit
  }

  function Found(sources: Sources, f: File): set<File> { set i, g | i in sources(f) && g in Adds(i) :: g }

  function PackagesOf(sources: Sources, f: File): set<File> { set i, g | i in sources(f) && g in Packages(i) :: g }

  /** A file that an import leads to: by a wildcard, the other files it resolves to and what its symbols lead to; by any
      other import, all it resolves to; by a relative import of several packages, nothing. */
  predicate LeadsTo(i: Import, g: File) {
    && !i.isBarrel
    && ((i.isWildcard && g in i.bySymbol) || (g in i.resolved && !(i.isWildcard && g.isInit)))
  }

  /** Scanning finds what some import leads to, and notes the package files that some import resolves to. */
  lemma FoundByTheImports(sources: Sources, f: File, g: File)
    ensures g in Found(sources, f) <==> exists i :: i in sources(f) && LeadsTo(i, g)
    ensures g in PackagesOf(sources, f) <==> g.isInit && exists i :: i in sources(f) && !i.isBarrel && g in i.resolved
  {
    forall i | i in sources(f)
      ensures g in Adds(i) <==> LeadsTo(i, g)
      ensures g in Packages(i) <==> g.isInit && !i.isBarrel && g in i.resolved
    {}
  }

  // found: what the current round discovered; packages: the __init__ files some import resolved to so far.
  datatype Walk = Walk(all: set<File>, scanned: set<File>, skipped: set<File>, packages: set<File>, found: set<File>)

  predicate IsScannable(f: File) { f.isPy && !f.excluded }

  function Pending(w: Walk): set<File> { set f | f in w.all && IsScannable(f) && f !in w.scanned }

  function ScanOne(sources: Sources, w: Walk, f: File): Walk {
    if f.isInit && f in w.packages then w.(scanned := w.scanned + {f}, skipped := w.skipped + {f})
    else w.(scanned := w.scanned + {f}, found := w.found + Found(sources, f), packages := w.packages + PackagesOf(sources, f))
  }

  function ScanAll(sources: Sources, w: Walk, order: seq<File>): Walk {
    if order == [] then w else ScanOne(sources, ScanAll(sources, w, order[..|order| - 1]), order[|order| - 1])
  }

  /** One round: scan what is pending, in some order, then take in what was found. */
  function Round(sources: Sources, w: Walk, order: seq<File>): Walk {
    var v := ScanAll(sources, w.(found := {}), order);
    v.(all := v.all + v.found)
  }

  function Begin(initial: set<File>): Walk { Walk(initial, {}, {}, {}, {}) }

  function Walked(sources: Sources, initial: set<File>, rounds: seq<seq<File>>): Walk {
    if rounds == [] then Begin(initial)
    else Round(sources, Walked(sources, initial, rounds[..|rounds| - 1]), rounds[|rounds| - 1])
  }

  predicate Enumerates(order: seq<File>, files: set<File>) { (set f | f in order) == files && |order| == |files| }

  /** Every round scans exactly what is pending; the order is whatever the iteration of a set gives. */
  predicate IsWalk(sources: Sources, initial: set<File>, rounds: seq<seq<File>>) {
    rounds == [] ||
      (var front := rounds[..|rounds| - 1];
       IsWalk(sources, initial, front) && Enumerates(rounds[|rounds| - 1], Pending(Walked(sources, initial, front))))
  }

  /** The walk ends when nothing is pending; a round that found nothing new leaves nothing pending. */
  predicate IsOver(w: Walk) { Pending(w) == {} }

  /** Files on disk: the walk finds nothing outside them. */
  ghost predicate IsDisk(sources: Sources, initial: set<File>, disk: set<File>) {
    initial <= disk && forall f | f in disk :: Found(sources, f) <= disk
  }

  method ExpandSharedDependencies(sources: Sources, initial: set<File>, sharedExists: bool, ghost disk: set<File>)
    returns (all: set<File>, ghost rounds: seq<seq<File>>)
    requires IsDisk(sources, initial, disk)
    ensures all == if sharedExists then Walked(sources, initial, rounds).all else initial
    ensures sharedExists ==> IsWalk(sources, initial, rounds) && IsOver(Walked(sources, initial, rounds))
    ensures sharedExists ==> IsClosed(sources, initial, {}, all)
    ensures sharedExists && PackagesComeByImport(sources, initial, all) ==>
      IsClosed(sources, initial, initial, all) && forall s | IsClosed(sources, initial, initial, s) :: all <= s
  {
    rounds := [];
    all := initial;
    if !sharedExists {
      return;
    }
    var w := Begin(initial);
    while true
      invariant IsWalk(sources, initial, rounds) && w == Walked(sources, initial, rounds)
      invariant w.all <= disk && w.scanned <= disk
      decreases |disk - w.scanned|
    {
      var pending := Pending(w);
      if pending == {} {
        break;
      }
      var before := |w.all|;
      ghost var order, was := [], w;
      w, order := ScanPending(sources, w, pending, disk);
      OneMoreRound(sources, initial, rounds, order);
      Shrinks(disk, was.scanned, pending);
      rounds := rounds + [order];
      if |w.all| == before {
        SameSize(was.all, w.all);
        break;
      }
    }
    all := w.all;
    FinishedWalkIsClosed(sources, initial, rounds);
    FinishedWalkIsLeast(sources, initial, rounds);
  }

  lemma OneMoreRound(sources: Sources, initial: set<File>, rounds: seq<seq<File>>, order: seq<File>)
    requires IsWalk(sources, initial, rounds) && Enumerates(order, Pending(Walked(sources, initial, rounds)))
    ensures IsWalk(sources, initial, rounds + [order])
    ensures Walked(sources, initial, rounds + [order]) == Round(sources, Walked(sources, initial, rounds), order)
  {
    assert (rounds + [order])[..|rounds|] == rounds;
  }

  lemma Shrinks(disk: set<File>, scanned: set<File>, pending: set<File>)
    requires pending != {} && pending <= disk && pending !! scanned
    ensures |disk - (scanned + pending)| < |disk - scanned|
  {
    assert disk - scanned == (disk - (scanned + pending)) + pending;
  }

  lemma SameSize(a: set<File>, b: set<File>)
    requires a <= b && |a| == |b|
    ensures a == b
  {
    assert b == a + (b - a);
  }

  /** One round; the order in which the set of pending files is gone through is left open. */
  method ScanPending(sources: Sources, w: Walk, pending: set<File>, ghost disk: set<File>) returns (v: Walk, ghost order: seq<File>)
    requires pending == Pending(w) && w.all <= disk && w.scanned <= disk
    requires forall f | f in disk :: Found(sources, f) <= disk
    ensures Enumerates(order, pending) && v == Round(sources, w, order)
    ensures w.all <= v.all <= disk && v.scanned == w.scanned + pending
  {
    ghost var start := w.(found := {});
    v, order := w.(found := {}), [];
    var todo := pending;
    assert pending - todo == {};
    while todo != {}
      invariant todo <= pending && PartlyScanned(sources, start, pending - todo, order, v)
    {
      var f :| f in todo;
      ScanOneMore(sources, start, pending - todo, order, v, f);
      assert pending - (todo - {f}) == pending - todo + {f};
      v, order, todo := ScanOne(sources, v, f), order + [f], todo - {f};
    }
    assert pending - {} == pending;
    RoundIsDone(sources, w, pending, order, v, disk);
    v := v.(all := v.all + v.found);
  }

  lemma RoundIsDone(sources: Sources, w: Walk, pending: set<File>, order: seq<File>, v: Walk, disk: set<File>)
    requires PartlyScanned(sources, w.(found := {}), pending, order, v)
    requires pending <= disk && w.all <= disk && forall f | f in disk :: Found(sources, f) <= disk
    ensures v.(all := v.all + v.found) == Round(sources, w, order)
    ensures v.all == w.all && v.scanned == w.scanned + pending && v.all + v.found <= disk
  {
    ScansScan(sources, w.(found := {}), order, pending);
    ScansStayOnDisk(sources, w.(found := {}), order, pending, disk);
  }

  ghost predicate PartlyScanned(sources: Sources, w: Walk, done: set<File>, order: seq<File>, v: Walk) {
    Enumerates(order, done) && v == ScanAll(sources, w, order)
  }

  lemma ScanOneMore(sources: Sources, w: Walk, done: set<File>, order: seq<File>, v: Walk, f: File)
    requires PartlyScanned(sources, w, done, order, v) && f !in done
    ensures PartlyScanned(sources, w, done + {f}, order + [f], ScanOne(sources, v, f))
  {
    EnumerateOneMore(order, done, f);
    assert (order + [f])[..|order|] == order;
  }

  lemma {:induction false} ScansStayOnDisk(sources: Sources, w: Walk, order: seq<File>, files: set<File>, disk: set<File>)
    requires Enumerates(order, files) && files <= disk && w.found <= disk
    requires forall f | f in disk :: Found(sources, f) <= disk
    ensures ScanAll(sources, w, order).found <= disk
  {
    if order != [] {
      LastIsNew(order, files);
      ScansStayOnDisk(sources, w, order[..|order| - 1], files - {order[|order| - 1]}, disk);
    }
  }

  lemma EnumerateOneMore(order: seq<File>, done: set<File>, f: File)
    requires Enumerates(order, done) && f !in done
    ensures Enumerates(order + [f], done + {f})
  {
    assert (set g | g in order + [f]) == (set g | g in order) + {f};
  }

  // ----- What a finished walk is -----

  /** The walk's bookkeeping: everything is accounted for by the initial files and by the files really scanned. */
  ghost predicate Sound(sources: Sources, initial: set<File>, w: Walk) {
    && initial <= w.all && w.skipped <= w.scanned <= w.all
    && (forall f | f in w.scanned :: IsScannable(f))
    && (forall f | f in w.skipped :: f.isInit && f in w.packages)
    && (forall f | f in w.scanned - w.skipped :: Found(sources, f) <= w.all + w.found && PackagesOf(sources, f) <= w.packages)
    && (forall g | g in w.packages :: IsPackageOfScanned(sources, w, g))
    && (forall g | g in w.all + w.found - initial :: IsFoundByScanned(sources, w, g))
  }

  ghost predicate IsPackageOfScanned(sources: Sources, w: Walk, g: File) {
    exists f :: f in w.scanned - w.skipped && g in PackagesOf(sources, f)
  }

  ghost predicate IsFoundByScanned(sources: Sources, w: Walk, g: File) {
    exists f :: f in w.scanned - w.skipped && g in Found(sources, f)
  }

  lemma ScanKeepsSound(sources: Sources, initial: set<File>, w: Walk, f: File)
    requires Sound(sources, initial, w) && f in Pending(w)
    ensures Sound(sources, initial, ScanOne(sources, w, f))
  {
    var v := ScanOne(sources, w, f);
    assert w.scanned - w.skipped <= v.scanned - v.skipped;
    if v.skipped == w.skipped {
      assert v.scanned - v.skipped == w.scanned - w.skipped + {f};
    } else {
      assert v.scanned - v.skipped == w.scanned - w.skipped;
    }
    forall g | g in v.packages
      ensures IsPackageOfScanned(sources, v, g)
    {
      assert g in w.packages ==> IsPackageOfScanned(sources, w, g);
    }
    forall g | g in v.all + v.found - initial
      ensures IsFoundByScanned(sources, v, g)
    {
      assert g in w.all + w.found ==> IsFoundByScanned(sources, w, g);
    }
  }

  lemma {:induction false} ScansScan(sources: Sources, w: Walk, order: seq<File>, files: set<File>)
    requires Enumerates(order, files)
    ensures ScanAll(sources, w, order).all == w.all && ScanAll(sources, w, order).scanned == w.scanned + files
  {
    if order == [] {
      assert files == {};
    } else {
      var f := order[|order| - 1];
      LastIsNew(order, files);
      ScansScan(sources, w, order[..|order| - 1], files - {f});
    }
  }

  lemma {:induction false} ScansKeepSound(sources: Sources, initial: set<File>, w: Walk, order: seq<File>, files: set<File>)
    requires Sound(sources, initial, w) && files <= Pending(w) && Enumerates(order, files)
    ensures Sound(sources, initial, ScanAll(sources, w, order))
  {
    if order != [] {
      var front, f := order[..|order| - 1], order[|order| - 1];
      LastIsNew(order, files);
      ScansKeepSound(sources, initial, w, front, files - {f});
      ScansScan(sources, w, front, files - {f});
      ScanKeepsSound(sources, initial, ScanAll(sources, w, front), f);
    }
  }

  lemma LastIsNew(order: seq<File>, files: set<File>)
    requires Enumerates(order, files) && order != []
    ensures var front, f := order[..|order| - 1], order[|order| - 1];
      f in files && Enumerates(front, files - {f})
  {
    var front, f := order[..|order| - 1], order[|order| - 1];
    assert order == front + [f];
    var seen := set g | g in front;
    assert files == seen + {f};
    DistinctBound(front);
    SizeWith(seen, f);
    assert files - {f} == seen;
  }

  lemma SizeWith(s: set<File>, f: File)
    ensures |s + {f}| == |s| + if f in s then 0 else 1
  {
    if f in s {
      assert s + {f} == s;
    }
  }

  lemma {:induction false} DistinctBound(s: seq<File>)
    ensures |set g | g in s| <= |s|
  {
    if s == [] {
      assert (set g | g in s) == {};
    } else {
      var front, f := s[..|s| - 1], s[|s| - 1];
      DistinctBound(front);
      assert s == front + [f];
      assert (set g | g in s) == (set g | g in front) + {f};
    }
  }

  lemma {:induction false} WalkIsSound(sources: Sources, initial: set<File>, rounds: seq<seq<File>>)
    requires IsWalk(sources, initial, rounds)
    ensures Sound(sources, initial, Walked(sources, initial, rounds))
    ensures Walked(sources, initial, rounds).found <= Walked(sources, initial, rounds).all
  {
    if rounds != [] {
      var front := rounds[..|rounds| - 1];
      var w, order := Walked(sources, initial, front), rounds[|rounds| - 1];
      WalkIsSound(sources, initial, front);
      var start := w.(found := {});
      assert Pending(start) == Pending(w);
      ResetKeepsSound(sources, initial, w);
      ScansKeepSound(sources, initial, start, order, Pending(start));
      TakingInKeepsSound(sources, initial, ScanAll(sources, start, order));
    }
  }

  lemma ResetKeepsSound(sources: Sources, initial: set<File>, w: Walk)
    requires Sound(sources, initial, w) && w.found <= w.all
    ensures Sound(sources, initial, w.(found := {}))
  {
    assert w.all + w.found == w.all + {};
  }

  lemma TakingInKeepsSound(sources: Sources, initial: set<File>, w: Walk)
    requires Sound(sources, initial, w)
    ensures Sound(sources, initial, w.(all := w.all + w.found))
  {
    var v := w.(all := w.all + w.found);
    assert v.all + v.found == w.all + w.found;
    forall g | g in v.packages
      ensures IsPackageOfScanned(sources, v, g)
    {
      assert IsPackageOfScanned(sources, w, g);
    }
    forall g | g in v.all + v.found - initial
      ensures IsFoundByScanned(sources, v, g)
    {
      assert IsFoundByScanned(sources, w, g);
    }
  }

  /** Whatever the order: the result holds the initial files, every scannable file of it was scanned or skipped, what
      was scanned has all its imports in it, and what was skipped is a package file that a scanned file imports. */
  lemma FinishedWalkIsClosed(sources: Sources, initial: set<File>, rounds: seq<seq<File>>)
    requires IsWalk(sources, initial, rounds) && IsOver(Walked(sources, initial, rounds))
    ensures var w := Walked(sources, initial, rounds);
      && initial <= w.all && w.found <= w.all
      && (forall f | f in w.all :: f in w.scanned <==> f.isPy && !f.excluded)
      && (forall f | f in w.scanned - w.skipped :: Found(sources, f) <= w.all)
      && (forall g | g in w.skipped :: g.isInit && exists f :: f in w.scanned - w.skipped && g in PackagesOf(sources, f))
  {
    WalkIsSound(sources, initial, rounds);
    var w := Walked(sources, initial, rounds);
    forall f | f in w.all && IsScannable(f)
      ensures f in w.scanned
    {
      assert f !in Pending(w);
    }
  }

  // ----- One round, in any order -----

  /** Pending, and not to be skipped on account of an earlier round. */
  predicate IsLive(w: Walk, f: File) { f in Pending(w) && !(f.isInit && f in w.packages) }

  /** A package file that is scanned or skipped as the order has it: another live file imports it in the same round. */
  predicate IsContested(sources: Sources, w: Walk, f: File) {
    f.isInit && IsLive(w, f) && exists g :: g in Pending(w) && g != f && IsLive(w, g) && f in PackagesOf(sources, g)
  }

  predicate IsUncontested(sources: Sources, w: Walk) { forall f | f in Pending(w) :: !IsContested(sources, w, f) }

  function Live(w: Walk, files: set<File>): set<File> { set f | f in files && IsLive(w, f) }

  function FoundBy(sources: Sources, files: set<File>): set<File> { set f, g | f in files && g in Found(sources, f) :: g }

  function PackagesBy(sources: Sources, files: set<File>): set<File> { set f, g | f in files && g in PackagesOf(sources, f) :: g }

  /** What scanning some pending files comes to when none of them is contested. */
  function Scanned(sources: Sources, w: Walk, files: set<File>): Walk {
    var live := Live(w, files);
    Walk(w.all, w.scanned + files, w.skipped + (files - live), w.packages + PackagesBy(sources, live), w.found + FoundBy(sources, live))
  }

  lemma ScannedOneMore(sources: Sources, w: Walk, files: set<File>, f: File)
    requires IsUncontested(sources, w) && files + {f} <= Pending(w) && f !in files
    ensures ScanOne(sources, Scanned(sources, w, files), f) == Scanned(sources, w, files + {f})
  {
    var live := Live(w, files);
    if IsLive(w, f) {
      assert Live(w, files + {f}) == live + {f};
      assert !IsContested(sources, w, f);
      assert f.isInit ==> f !in PackagesBy(sources, live);
      assert PackagesBy(sources, live + {f}) == PackagesBy(sources, live) + PackagesOf(sources, f);
      assert FoundBy(sources, live + {f}) == FoundBy(sources, live) + Found(sources, f);
      assert files + {f} - (live + {f}) == files - live;
    } else {
      assert Live(w, files + {f}) == live;
      assert files + {f} - live == files - live + {f};
    }
  }

  lemma {:induction false} UncontestedScan(sources: Sources, w: Walk, order: seq<File>, files: set<File>)
    requires IsUncontested(sources, w) && files <= Pending(w) && Enumerates(order, files)
    ensures ScanAll(sources, w, order) == Scanned(sources, w, files)
  {
    if order == [] {
      assert files == {};
      ScannedNothing(sources, w);
    } else {
      var f := order[|order| - 1];
      LastIsNew(order, files);
      UncontestedScan(sources, w, order[..|order| - 1], files - {f});
      ScannedOneMore(sources, w, files - {f}, f);
      assert files - {f} + {f} == files;
    }
  }

  lemma ScannedNothing(sources: Sources, w: Walk)
    ensures Scanned(sources, w, {}) == w
  {
    assert Live(w, {}) == {} && PackagesBy(sources, {}) == {} && FoundBy(sources, {}) == {};
  }

  lemma {:induction false} SomeOrder(files: set<File>) returns (order: seq<File>)
    ensures Enumerates(order, files)
  {
    order := [];
    if f :| f in files {
      var front := SomeOrder(files - {f});
      order := front + [f];
      EnumerateOneMore(front, files - {f}, f);
      assert files == files - {f} + {f};
    } else {
      assert files == {};
    }
  }

  lemma {:induction false} ScanConcat(sources: Sources, w: Walk, a: seq<File>, b: seq<File>)
    ensures ScanAll(sources, w, a + b) == ScanAll(sources, ScanAll(sources, w, a), b)
  {
    if b == [] {
      assert a + b == a;
    } else {
      assert (a + b)[..|a + b| - 1] == a + b[..|b| - 1];
      ScanConcat(sources, w, a, b[..|b| - 1]);
    }
  }

  lemma {:induction false} OthersAreNotSkipped(sources: Sources, w: Walk, order: seq<File>, f: File)
    requires f !in order
    ensures f in ScanAll(sources, w, order).skipped <==> f in w.skipped
  {
    if order != [] {
      OthersAreNotSkipped(sources, w, order[..|order| - 1], f);
    }
  }

  lemma EnumerateFront(first: seq<File>, rest: seq<File>, files: set<File>)
    requires Enumerates(rest, files) && |first| <= 2 && (forall f | f in first :: f !in files)
    requires |first| == 2 ==> first[0] != first[1]
    ensures Enumerates(first + rest, (set f | f in first) + files)
  {
    assert (set f | f in first + rest) == (set f | f in first) + files;
    if |first| == 1 {
      assert (set f | f in first) == {first[0]};
    } else if |first| == 2 {
      assert (set f | f in first) == {first[0], first[1]};
    }
    assert (set f | f in first) !! files;
  }

  lemma PairFirst(sources: Sources, w: Walk, f: File, g: File, x: File, rest: seq<File>)
    requires f in Pending(w) && g in Pending(w) && f != g && x in {f, g} && Enumerates(rest, Pending(w) - {f, g})
    ensures Enumerates([f, g] + rest, Pending(w))
    ensures x in Round(sources, w, [f, g] + rest).skipped <==>
      x in ScanOne(sources, ScanOne(sources, w.(found := {}), f), g).skipped
  {
    var start := w.(found := {});
    EnumerateFront([f, g], rest, Pending(w) - {f, g});
    assert (set y | y in [f, g]) + (Pending(w) - {f, g}) == Pending(w);
    ScanConcat(sources, start, [f, g], rest);
    ScanPair(sources, start, f, g);
    assert x in rest ==> x in (set y | y in rest);
    OthersAreNotSkipped(sources, ScanAll(sources, start, [f, g]), rest, x);
  }

  /** A contested package file is scanned in one order and skipped in another. */
  lemma ContestedMakesADifference(sources: Sources, w: Walk, f: File, g: File) returns (a: seq<File>, b: seq<File>)
    requires w.skipped <= w.scanned && f.isInit && IsLive(w, f) && g != f && IsLive(w, g) && f in PackagesOf(sources, g)
    ensures Enumerates(a, Pending(w)) && Enumerates(b, Pending(w))
    ensures f !in Round(sources, w, a).skipped && f in Round(sources, w, b).skipped
  {
    var rest := SomeOrder(Pending(w) - {f, g});
    a, b := [f, g] + rest, [g, f] + rest;
    assert Pending(w) - {g, f} == Pending(w) - {f, g};
    PairFirst(sources, w, f, g, f, rest);
    PairFirst(sources, w, g, f, f, rest);
  }

  lemma ScanPair(sources: Sources, w: Walk, f: File, g: File)
    ensures ScanAll(sources, w, [f, g]) == ScanOne(sources, ScanOne(sources, w, f), g)
  {
    assert [f, g][..1] == [f] && [f][..0] == [];
    assert ScanAll(sources, w, [f]) == ScanOne(sources, w, f);
  }

  /** A round ends in the same state in every order exactly when no pending package file is contested. */
  lemma RoundIsDeterminedExactlyWhenUncontested(sources: Sources, w: Walk)
    requires w.skipped <= w.scanned
    ensures IsUncontested(sources, w) <==>
      forall a, b | Enumerates(a, Pending(w)) && Enumerates(b, Pending(w)) :: Round(sources, w, a) == Round(sources, w, b)
  {
    if IsUncontested(sources, w) {
      forall a, b | Enumerates(a, Pending(w)) && Enumerates(b, Pending(w))
        ensures Round(sources, w, a) == Round(sources, w, b)
      {
        UncontestedRounds(sources, w, a, b);
      }
    } else {
      var f :| f in Pending(w) && IsContested(sources, w, f);
      var g :| g in Pending(w) && g != f && IsLive(w, g) && f in PackagesOf(sources, g);
      var a, b := ContestedMakesADifference(sources, w, f, g);
    }
  }

  lemma UncontestedRounds(sources: Sources, w: Walk, a: seq<File>, b: seq<File>)
    requires IsUncontested(sources, w) && Enumerates(a, Pending(w)) && Enumerates(b, Pending(w))
    ensures Round(sources, w, a) == Round(sources, w, b)
  {
    var start := w.(found := {});
    assert Pending(start) == Pending(w);
    assert forall f :: IsLive(start, f) <==> IsLive(w, f);
    forall f | f in Pending(start)
      ensures !IsContested(sources, start, f)
    {
      assert !IsContested(sources, w, f);
    }
    UncontestedScan(sources, start, a, Pending(w));
    UncontestedScan(sources, start, b, Pending(w));
  }

  /** Every round of the walk starts uncontested. */
  predicate StaysUncontested(sources: Sources, initial: set<File>, rounds: seq<seq<File>>) {
    rounds == [] ||
      (var front := rounds[..|rounds| - 1];
       StaysUncontested(sources, initial, front) && IsUncontested(sources, Walked(sources, initial, front)))
  }

  lemma {:induction false} SameRoundsSameWalk(sources: Sources, initial: set<File>, rounds: seq<seq<File>>, other: seq<seq<File>>)
    requires IsWalk(sources, initial, rounds) && IsWalk(sources, initial, other) && |rounds| == |other|
    requires StaysUncontested(sources, initial, rounds)
    ensures Walked(sources, initial, rounds) == Walked(sources, initial, other)
  {
    if rounds != [] {
      var n := |rounds| - 1;
      SameRoundsSameWalk(sources, initial, rounds[..n], other[..n]);
      UncontestedRounds(sources, Walked(sources, initial, rounds[..n]), rounds[n], other[n]);
    }
  }

  lemma {:induction false} OverStaysOver(sources: Sources, initial: set<File>, rounds: seq<seq<File>>, n: nat)
    requires IsWalk(sources, initial, rounds) && n <= |rounds| && IsOver(Walked(sources, initial, rounds[..n]))
    ensures IsWalk(sources, initial, rounds[..n])
    ensures Walked(sources, initial, rounds).all == Walked(sources, initial, rounds[..n]).all
    ensures IsOver(Walked(sources, initial, rounds))
  {
    if n == |rounds| {
      assert rounds[..n] == rounds;
    } else {
      var front := rounds[..|rounds| - 1];
      assert front[..n] == rounds[..n];
      OverStaysOver(sources, initial, front, n);
      assert rounds[|rounds| - 1] == [];
    }
  }

  lemma {:induction false} PrefixStaysUncontested(sources: Sources, initial: set<File>, rounds: seq<seq<File>>, n: nat)
    requires IsWalk(sources, initial, rounds) && StaysUncontested(sources, initial, rounds) && n <= |rounds|
    ensures IsWalk(sources, initial, rounds[..n]) && StaysUncontested(sources, initial, rounds[..n])
  {
    if n == |rounds| {
      assert rounds[..n] == rounds;
    } else {
      assert rounds[..|rounds| - 1][..n] == rounds[..n];
      PrefixStaysUncontested(sources, initial, rounds[..|rounds| - 1], n);
    }
  }

  lemma {:induction false} PrefixIsAWalk(sources: Sources, initial: set<File>, rounds: seq<seq<File>>, n: nat)
    requires IsWalk(sources, initial, rounds) && n <= |rounds|
    ensures IsWalk(sources, initial, rounds[..n])
  {
    if n == |rounds| {
      assert rounds[..n] == rounds;
    } else {
      assert rounds[..|rounds| - 1][..n] == rounds[..n];
      PrefixIsAWalk(sources, initial, rounds[..|rounds| - 1], n);
    }
  }

  /** A finished walk whose rounds all start uncontested ends in the same files as every other finished walk. */
  lemma UncontestedWalksAgree(sources: Sources, initial: set<File>, rounds: seq<seq<File>>, other: seq<seq<File>>)
    requires IsWalk(sources, initial, rounds) && IsOver(Walked(sources, initial, rounds)) && StaysUncontested(sources, initial, rounds)
    requires IsWalk(sources, initial, other) && IsOver(Walked(sources, initial, other))
    ensures Walked(sources, initial, rounds).all == Walked(sources, initial, other).all
  {
    var n := if |rounds| <= |other| then |rounds| else |other|;
    PrefixStaysUncontested(sources, initial, rounds, n);
    PrefixIsAWalk(sources, initial, other, n);
    SameRoundsSameWalk(sources, initial, rounds[..n], other[..n]);
    assert rounds[..|rounds|] == rounds && other[..|other|] == other;
    OverStaysOver(sources, initial, rounds, n);
    OverStaysOver(sources, initial, other, n);
  }

  // ----- What a caller can check -----

  /** Closed under the imports of the scannable files but for package files, of which only some count. */
  ghost predicate IsClosed(sources: Sources, initial: set<File>, packages: set<File>, s: set<File>) {
    initial <= s && forall f | f in s && Counts(packages, f) :: Found(sources, f) <= s
  }

  predicate Counts(packages: set<File>, f: File) { IsScannable(f) && (!f.isInit || f in packages) }

  /** Among some files: no other file's import resolves to an initial package file, and all other package files come in as
      what an import resolves to, none by symbol alone. */
  ghost predicate PackagesComeByImport(sources: Sources, initial: set<File>, s: set<File>) {
    forall f: File, g: File | f in s && Counts(initial, f) && g.isInit && IsScannable(g) ::
      && (g in PackagesOf(sources, f) && g in initial ==> g == f)
      && (g in Found(sources, f) && g !in initial ==> g in PackagesOf(sources, f))
  }

  /** So far the initial package files are not skipped, and all others are bound to be. */
  ghost predicate IsClean(initial: set<File>, w: Walk) {
    && (forall g | g in w.all + w.found && g.isInit && IsScannable(g) && g !in initial :: g in w.packages)
    && (forall g | g in initial && g.isInit && IsScannable(g) && g in w.packages :: g in w.scanned)
    && w.skipped !! initial
  }

  lemma ScanStaysClean(sources: Sources, initial: set<File>, s: set<File>, w: Walk, f: File)
    requires PackagesComeByImport(sources, initial, s) && f in s && IsClean(initial, w) && f in Pending(w)
    ensures IsClean(initial, ScanOne(sources, w, f))
    ensures !Counts(initial, f) ==> f.isInit && f in w.packages
  {
    if Counts(initial, f) {
      assert f.isInit ==> f !in w.packages;
    } else {
      assert f in w.all + w.found;
    }
  }

  lemma {:induction false} ScansStayClean(sources: Sources, initial: set<File>, s: set<File>, w: Walk, order: seq<File>, files: set<File>)
    requires PackagesComeByImport(sources, initial, s) && files <= s && IsClean(initial, w)
    requires files <= Pending(w) && Enumerates(order, files)
    ensures IsClean(initial, ScanAll(sources, w, order))
    ensures IsClosed(sources, initial, initial, s) && w.found <= s ==> ScanAll(sources, w, order).found <= s
  {
    if order != [] {
      var front, f := order[..|order| - 1], order[|order| - 1];
      LastIsNew(order, files);
      ScansStayClean(sources, initial, s, w, front, files - {f});
      ScansScan(sources, w, front, files - {f});
      ScanStaysClean(sources, initial, s, ScanAll(sources, w, front), f);
    }
  }

  lemma RoundStaysClean(sources: Sources, initial: set<File>, s: set<File>, w: Walk, order: seq<File>)
    requires PackagesComeByImport(sources, initial, s) && w.all <= s && w.found <= w.all && IsClean(initial, w)
    requires Enumerates(order, Pending(w))
    ensures var r := Round(sources, w, order);
      IsClean(initial, r) && w.all <= r.all && r.found <= r.all && (IsClosed(sources, initial, initial, s) ==> r.all <= s)
  {
    var start := w.(found := {});
    assert Pending(start) == Pending(w) && IsClean(initial, start);
    ScansStayClean(sources, initial, s, start, order, Pending(start));
    ScansScan(sources, start, order, Pending(start));
  }

  /** A walk inside files where package files come by import stays clean. */
  lemma {:induction false} WalkStaysClean(sources: Sources, initial: set<File>, rounds: seq<seq<File>>, s: set<File>)
    requires PackagesComeByImport(sources, initial, s) && IsWalk(sources, initial, rounds)
    requires initial <= s && (Walked(sources, initial, rounds).all <= s || IsClosed(sources, initial, initial, s))
    ensures var w := Walked(sources, initial, rounds);
      IsClean(initial, w) && w.found <= w.all <= s
  {
    if rounds != [] {
      var front, order := rounds[..|rounds| - 1], rounds[|rounds| - 1];
      var w := Walked(sources, initial, front);
      WalkGrows(sources, w, order);
      WalkStaysClean(sources, initial, front, s);
      RoundStaysClean(sources, initial, s, w, order);
    }
  }

  lemma {:induction false} ScansKeepAll(sources: Sources, w: Walk, order: seq<File>)
    ensures ScanAll(sources, w, order).all == w.all
  {
    if order != [] {
      ScansKeepAll(sources, w, order[..|order| - 1]);
    }
  }

  lemma WalkGrows(sources: Sources, w: Walk, order: seq<File>)
    ensures w.all <= Round(sources, w, order).all
  {
    ScansKeepAll(sources, w.(found := {}), order);
  }

  /** Where package files come by import no round is contested. */
  lemma CleanIsUncontested(sources: Sources, initial: set<File>, s: set<File>, w: Walk)
    requires PackagesComeByImport(sources, initial, s) && w.all <= s && IsClean(initial, w)
    ensures IsUncontested(sources, w)
  {
    forall f | f in Pending(w)
      ensures !IsContested(sources, w, f)
    {
      assert f in w.all + w.found;
      forall g | g in Pending(w) && IsLive(w, g)
        ensures Counts(initial, g)
      {
        assert g in w.all + w.found;
      }
    }
  }

  /** A finished walk whose files get their package files by import is the least set that holds the initial files and is
      closed under the imports of all scannable files but the later package files. */
  lemma FinishedWalkIsLeast(sources: Sources, initial: set<File>, rounds: seq<seq<File>>)
    requires IsWalk(sources, initial, rounds) && IsOver(Walked(sources, initial, rounds))
    ensures var all := Walked(sources, initial, rounds).all;
      PackagesComeByImport(sources, initial, all) ==>
        IsClosed(sources, initial, initial, all) && forall s | IsClosed(sources, initial, initial, s) :: all <= s
  {
    var w := Walked(sources, initial, rounds);
    FinishedWalkIsClosed(sources, initial, rounds);
    if PackagesComeByImport(sources, initial, w.all) {
      WalkStaysClean(sources, initial, rounds, w.all);
      forall f | f in w.all && Counts(initial, f)
        ensures Found(sources, f) <= w.all
      {
        assert f in w.scanned && f !in w.skipped;
      }
      forall s | IsClosed(sources, initial, initial, s)
        ensures w.all <= s
      {
        WalkStaysClean(sources, initial, rounds, s * w.all);
      }
    }
  }

  /** Whatever the order, a finished walk is closed but for package files; and where its package files come by import,
      every order ends in the same files. */
  lemma OrderDoesNotMatterWhenPackagesComeByImport(sources: Sources, initial: set<File>, rounds: seq<seq<File>>, other: seq<seq<File>>)
    requires IsWalk(sources, initial, rounds) && IsOver(Walked(sources, initial, rounds))
    requires IsWalk(sources, initial, other) && IsOver(Walked(sources, initial, other))
    ensures IsClosed(sources, initial, {}, Walked(sources, initial, rounds).all)
    ensures PackagesComeByImport(sources, initial, Walked(sources, initial, rounds).all) ==>
      Walked(sources, initial, rounds).all == Walked(sources, initial, other).all
  {
    FinishedWalkIsClosed(sources, initial, rounds);
    if PackagesComeByImport(sources, initial, Walked(sources, initial, rounds).all) {
      WalkIsUncontested(sources, initial, rounds, Walked(sources, initial, rounds).all);
      UncontestedWalksAgree(sources, initial, rounds, other);
    }
  }

  lemma {:induction false} WalkIsUncontested(sources: Sources, initial: set<File>, rounds: seq<seq<File>>, s: set<File>)
    requires PackagesComeByImport(sources, initial, s) && IsWalk(sources, initial, rounds)
    requires initial <= s && Walked(sources, initial, rounds).all <= s
    ensures StaysUncontested(sources, initial, rounds)
  {
    if rounds != [] {
      var front := rounds[..|rounds| - 1];
      var w := Walked(sources, initial, front);
      WalkGrows(sources, w, rounds[|rounds| - 1]);
      WalkStaysClean(sources, initial, front, s);
      WalkIsUncontested(sources, initial, front, s);
      CleanIsUncontested(sources, initial, s, w);
    }
  }

  // A module that imports a symbol from a package by a wildcard: the symbol leads through a nested package to a file that
  // imports that nested package in turn, and the nested package imports one file more.
  const MODULE := File(0, true, false, false)
  const PACKAGE := File(1, true, true, false)
  const NESTED := File(2, true, true, false)
  const LEAF := File(3, true, false, false)
  const EXTRA := File(4, true, false, false)

  function BySymbol(f: File): seq<Import> {
    if f == MODULE then [Import(false, true, {PACKAGE}, {PACKAGE, NESTED, LEAF})]
    else if f == LEAF then [Import(false, false, {NESTED}, {})]
    else if f == NESTED then [Import(false, false, {EXTRA}, {})]
    else []
  }

  lemma OneImport(sources: Sources, f: File, i: Import)
    requires sources(f) == [i]
    ensures Found(sources, f) == Adds(i) && PackagesOf(sources, f) == Packages(i)
  {
    assert sources(f)[0] == i;
    assert forall j | j in sources(f) :: j == i;
  }

  lemma SecondRound(w: Walk, f: File, g: File)
    requires w == Walk({MODULE, PACKAGE, NESTED, LEAF}, {MODULE}, {}, {PACKAGE}, {PACKAGE, NESTED, LEAF})
    requires {f, g} == {NESTED, LEAF}
    ensures ScanAll(BySymbol, w.(found := {}), [PACKAGE, f, g]) ==
      ScanOne(BySymbol, ScanOne(BySymbol, w.(found := {}, scanned := {MODULE, PACKAGE}, skipped := {PACKAGE}), f), g)
  {
    var start := w.(found := {});
    assert [PACKAGE, f, g] == [PACKAGE] + [f, g];
    ScanConcat(BySymbol, start, [PACKAGE], [f, g]);
    ScanSingle(BySymbol, start, PACKAGE);
    ScanPair(BySymbol, ScanOne(BySymbol, start, PACKAGE), f, g);
  }

  /** From the module alone, the extra file is exported or not depending on whether the second round scans the nested
      package before the leaf. */
  lemma OrderCanMatter()
    ensures var w := Round(BySymbol, Begin({MODULE}), [MODULE]);
      && IsContested(BySymbol, w, NESTED)
      && EXTRA in Round(BySymbol, w, [PACKAGE, NESTED, LEAF]).all
      && Round(BySymbol, w, [PACKAGE, LEAF, NESTED]).all == {MODULE, PACKAGE, NESTED, LEAF}
      && IsOver(Round(BySymbol, w, [PACKAGE, LEAF, NESTED]))
  {
    var w := AfterTheModule();
    OneImport(BySymbol, LEAF, Import(false, false, {NESTED}, {}));
    OneImport(BySymbol, NESTED, Import(false, false, {EXTRA}, {}));
    SecondRound(w, NESTED, LEAF);
    SecondRound(w, LEAF, NESTED);
    assert IsLive(w, LEAF) && NESTED in PackagesOf(BySymbol, LEAF);
  }

  lemma ScanSingle(sources: Sources, w: Walk, f: File)
    ensures ScanAll(sources, w, [f]) == ScanOne(sources, w, f)
  {
    assert [f][..0] == [];
  }

  lemma AfterTheModule() returns (w: Walk)
    ensures w == Round(BySymbol, Begin({MODULE}), [MODULE])
    ensures w == Walk({MODULE, PACKAGE, NESTED, LEAF}, {MODULE}, {}, {PACKAGE}, {PACKAGE, NESTED, LEAF})
  {
    w := Round(BySymbol, Begin({MODULE}), [MODULE]);
    var i := Import(false, true, {PACKAGE}, {PACKAGE, NESTED, LEAF});
    OneImport(BySymbol, MODULE, i);
    assert Adds(i) == {PACKAGE, NESTED, LEAF} && Packages(i) == {PACKAGE};
    ScanSingle(BySymbol, Begin({MODULE}), MODULE);
  }

  // ----- The fence around an exported file -----

  /** The length of the backtick run that ends a text. */
  function RunAtEnd(s: string): nat {
    if s != [] && s[|s| - 1] == '`' then RunAtEnd(s[..|s| - 1]) + 1 else 0
  }

  function LongestRun(s: string): nat {
    if s == [] then 0
    else
      var rest, run := LongestRun(s[..|s| - 1]), RunAtEnd(s);
      if run > rest then run else rest
  }

  function CodeFence(content: string): string { seq(if LongestRun(content) >= 3 then LongestRun(content) + 1 else 3, _ => '`') }

  lemma {:induction false} RunOfTicks(s: string, i: nat, j: nat)
    requires i <= j <= |s| && forall k | i <= k < j :: s[k] == '`'
    ensures RunAtEnd(s[..j]) >= j - i
    decreases j
  {
    if i < j {
      RunOfTicks(s, i, j - 1);
      assert s[..j][..j - 1] == s[..j - 1];
    }
  }

  lemma {:induction false} RunIsCounted(s: string, j: nat)
    requires j <= |s|
    ensures RunAtEnd(s[..j]) <= LongestRun(s)
  {
    if j == |s| {
      assert s[..j] == s;
    } else {
      RunIsCounted(s[..|s| - 1], j);
      assert s[..|s| - 1][..j] == s[..j];
    }
  }

  lemma {:induction false} LongestRunOccurs(s: string) returns (i: nat)
    ensures i + LongestRun(s) <= |s| && forall k | i <= k < i + LongestRun(s) :: s[k] == '`'
  {
    i := 0;
    if s != [] {
      RunEndsTheText(s);
      i := LongestRunOccurs(s[..|s| - 1]);
      if RunAtEnd(s) > LongestRun(s[..|s| - 1]) {
        i := |s| - RunAtEnd(s);
      }
    }
  }

  lemma {:induction false} RunEndsTheText(s: string)
    ensures RunAtEnd(s) <= |s| && forall k | |s| - RunAtEnd(s) <= k < |s| :: s[k] == '`'
  {
    if s != [] && s[|s| - 1] == '`' {
      RunEndsTheText(s[..|s| - 1]);
    }
  }

  /** A fence longer than three is no longer than needed: a run one shorter occurs in the content. */
  lemma FenceIsNoLongerThanNeeded(content: string)
    ensures |CodeFence(content)| > 3 ==> exists i: nat, n: nat :: n + 1 == |CodeFence(content)| && AreTicks(content, i, n)
  {
    var i := LongestRunOccurs(content);
    assert AreTicks(content, i, LongestRun(content));
  }

  predicate AreTicks(s: string, i: nat, n: nat) {
    i + n <= |s| && forall k | i <= k < i + n :: s[k] == '`'
  }

  /** The fence is all backticks, at least three, and occurs nowhere in the content it encloses. */
  lemma FenceDoesNotOccurInside(content: string, i: nat)
    ensures |CodeFence(content)| >= 3 && forall k | 0 <= k < |CodeFence(content)| :: CodeFence(content)[k] == '`'
    ensures i + |CodeFence(content)| <= |content| ==> content[i..i + |CodeFence(content)|] != CodeFence(content)
  {
    var fence := CodeFence(content);
    var j := i + |fence|;
    if j <= |content| && content[i..j] == fence {
      assert forall k | i <= k < j :: content[k] == fence[k - i];
      RunOfTicks(content, i, j);
      RunIsCounted(content, j);
      assert false;
    }
  }
}
