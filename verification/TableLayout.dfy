// The pool table: display columns, the two-phase squeeze of the column widths, and the rendered lines.
module TableLayout {
  import opened Common

  // A character together with whether it takes two display columns.
  datatype Glyph = Glyph(code: nat, wide: bool)

  type Text = seq<Glyph>

  const MARK := Glyph(0x2026, false)
  const SPACE := Glyph(0x20, false)
  const RULE := Glyph(0x2501, true)

  const PAD := 2

  function CharWidth(c: Glyph): nat { if c.wide then 2 else 1 }

  function DisplayWidth(t: Text): nat {
    if t == [] then 0 else DisplayWidth(t[..|t| - 1]) + CharWidth(t[|t| - 1])
  }

  lemma {:induction false} WidthConcat(a: Text, b: Text)
    ensures DisplayWidth(a + b) == DisplayWidth(a) + DisplayWidth(b)
  {
    if b == [] {
      assert a + b == a;
    } else {
      assert (a + b)[..|a + b| - 1] == a + b[..|b| - 1];
      WidthConcat(a, b[..|b| - 1]);
    }
  }

  function Repeat(c: Glyph, n: int): Text { seq(if n > 0 then n else 0, _ => c) }

  lemma {:induction false} RepeatWidth(c: Glyph, n: int)
    ensures DisplayWidth(Repeat(c, n)) == if n > 0 then n * CharWidth(c) else 0
  {
    if n > 0 {
      assert Repeat(c, n)[..n - 1] == Repeat(c, n - 1);
      RepeatWidth(c, n - 1);
    }
  }

  // ----- Truncation -----

  /** The cut is at the last place where what is left of it, and the marker, fit. */
  predicate IsCut(t: Text, width: int, k: nat) {
    k < |t| && DisplayWidth(t[..k]) <= width - 1 < DisplayWidth(t[..k + 1])
  }

  predicate IsFit(t: Text, width: int, r: Text) {
    if width <= 0 then r == []
    else if DisplayWidth(t) <= width then r == t
    else if width == 1 then r == [MARK]
    else r != [] && IsCut(t, width, |r| - 1) && r == t[..|r| - 1] + [MARK]
  }

  method Fit(t: Text, width: int) returns (r: Text)
    ensures IsFit(t, width, r)
  {
    if width <= 0 {
      return [];
    } else if DisplayWidth(t) <= width {
      return t;
    } else if width == 1 {
      return [MARK];
    }
    var consumed := 0;
    for i := 0 to |t|
      invariant consumed == DisplayWidth(t[..i]) <= width - 1
      invariant i == |t| ==> consumed == DisplayWidth(t)
    {
      assert t[..i + 1][..i] == t[..i];
      assert i + 1 == |t| ==> t[..i + 1] == t;
      if consumed + CharWidth(t[i]) > width - 1 {
        return t[..i] + [MARK];
      }
      consumed := consumed + CharWidth(t[i]);
    }
    assert false;
  }

  /** A truncated cell takes the width; or one column less, exactly when a wide character straddles the cut. */
  lemma TruncatedWidth(t: Text, width: int, r: Text, k: nat)
    requires IsFit(t, width, r) && 1 <= width < DisplayWidth(t) && IsCut(t, width, k)
    ensures DisplayWidth(r) == width - if t[k].wide && DisplayWidth(t[..k]) == width - 2 then 1 else 0
  {
    assert t[..k + 1][..k] == t[..k];
    if width == 1 {
      assert DisplayWidth([MARK]) == DisplayWidth([]) + 1;
    } else {
      CutIsUnique(t, width, k, |r| - 1);
      assert r[..k] == t[..k];
    }
  }

  /** A cell that fits is kept; one that does not ends in the marker, and what is before it is the beginning of the cell. */
  lemma CutCellsEndInTheMarker(t: Text, width: int, r: Text)
    requires IsFit(t, width, r) && width >= 1
    ensures DisplayWidth(t) <= width ==> r == t
    ensures DisplayWidth(t) > width ==> r != [] && r[|r| - 1] == MARK && r[..|r| - 1] <= t
  {}

  lemma {:induction false} WidthGrows(t: Text, i: nat, j: nat)
    requires i <= j <= |t|
    ensures DisplayWidth(t[..i]) <= DisplayWidth(t[..j])
  {
    WidthConcat(t[..i], t[i..j]);
    assert t[..i] + t[i..j] == t[..j];
  }

  lemma CutIsUnique(t: Text, width: int, k: nat, l: nat)
    requires IsCut(t, width, k) && IsCut(t, width, l)
    ensures k == l
  {
    if k < l {
      WidthGrows(t, k + 1, l);
    } else if l < k {
      WidthGrows(t, l + 1, k);
    }
  }

  lemma FitsInside(t: Text, width: int, r: Text)
    requires IsFit(t, width, r)
    ensures DisplayWidth(r) <= if width > 0 then width else 0
  {
    if 1 < width < DisplayWidth(t) {
      TruncatedWidth(t, width, r, |r| - 1);
    } else if 1 == width < DisplayWidth(t) {
      assert DisplayWidth([MARK]) == DisplayWidth([]) + 1;
    }
  }

  // ----- Sums of widths -----

  function Sum(s: seq<int>): int {
    if s == [] then 0 else Sum(s[..|s| - 1]) + s[|s| - 1]
  }

  lemma {:induction false} SumUpdate(s: seq<int>, i: nat, v: int)
    requires i < |s|
    ensures Sum(s[i := v]) == Sum(s) - s[i] + v
  {
    if i < |s| - 1 {
      SumUpdate(s[..|s| - 1], i, v);
      assert s[i := v][..|s| - 1] == s[..|s| - 1][i := v];
    } else {
      assert s[i := v][..|s| - 1] == s[..|s| - 1];
    }
  }

  lemma {:induction false} SumOfBounds(s: seq<int>, t: seq<int>)
    requires |s| == |t| && forall i | 0 <= i < |s| :: s[i] <= t[i]
    ensures Sum(s) <= Sum(t)
    ensures Sum(s) == Sum(t) <==> s == t
  {
    if s != [] {
      var n := |s| - 1;
      SumOfBounds(s[..n], t[..n]);
      assert s == s[..n] + [s[n]] && t == t[..n] + [t[n]];
    }
  }

  function Ones(n: nat): seq<int> { seq(n, _ => 1) }

  lemma {:induction false} SumOfOnes(n: nat)
    ensures Sum(Ones(n)) == n
  {
    if n > 0 {
      assert Ones(n)[..n - 1] == Ones(n - 1);
      SumOfOnes(n - 1);
    }
  }

  // ----- The squeeze, stated without its loops -----

  /** Widest first; of equally wide columns the left one first. */
  predicate Before(natural: seq<int>, i: nat, j: nat)
    requires i < |natural| && j < |natural|
  {
    natural[i] > natural[j] || (natural[i] == natural[j] && i < j)
  }

  /** Columns give way down to their floors, widest first: a column has only lost width when all before it are at their floors. */
  predicate Squeezed(natural: seq<int>, floors: seq<int>, w: seq<int>)
    requires |natural| == |floors| == |w|
  {
    && (forall i | 0 <= i < |w| :: floors[i] <= w[i] <= natural[i])
    && forall i, j | 0 <= i < |w| && 0 <= j < |w| && Before(natural, i, j) && w[j] < natural[j] :: w[i] == floors[i]
  }

  /** Below the floors the widest column gives way, the left one first: a column below its floor is at most one
      narrower than any other column, and no narrower than any column to its left. */
  predicate Shaved(floors: seq<int>, w: seq<int>)
    requires |floors| == |w|
  {
    && (forall i | 0 <= i < |w| :: 1 <= w[i] <= floors[i])
    && forall i, j | 0 <= i < |w| && 0 <= j < |w| && w[j] < floors[j] :: w[i] <= w[j] + if i < j then 0 else 1
  }

  predicate Fitted(natural: seq<int>, floors: seq<int>, budget: int, w: seq<int>)
    requires |natural| == |floors|
  {
    && |w| == |floors|
    && (Squeezed(natural, floors, w) || Shaved(floors, w))
    && Sum(w) == if Sum(natural) <= budget then Sum(natural) else if budget >= |floors| then budget else |floors|
  }

  predicate Proper(natural: seq<int>, floors: seq<int>) {
    |natural| == |floors| && forall i | 0 <= i < |floors| :: 1 <= floors[i] <= natural[i]
  }

  /** That describes exactly one list of widths. */
  lemma FittedIsUnique(natural: seq<int>, floors: seq<int>, budget: int, v: seq<int>, w: seq<int>)
    requires Proper(natural, floors) && Fitted(natural, floors, budget, v) && Fitted(natural, floors, budget, w)
    ensures v == w
  {
    if Squeezed(natural, floors, v) && Shaved(floors, w) {
      SumOfBounds(w, v);
    } else if Shaved(floors, v) && Squeezed(natural, floors, w) {
      SumOfBounds(v, w);
    } else if v != w {
      var i := WhereSmaller(v, w);
      var j := WhereSmaller(w, v);
      OneIsBefore(natural, i, j);
    }
  }

  lemma OneIsBefore(natural: seq<int>, i: nat, j: nat)
    ensures i < |natural| && j < |natural| && i != j ==> Before(natural, i, j) || Before(natural, j, i)
  {}

  lemma WhereSmaller(v: seq<int>, w: seq<int>) returns (i: nat)
    requires |v| == |w| && Sum(v) == Sum(w) && v != w
    ensures i < |v| && v[i] < w[i]
  {
    if forall k | 0 <= k < |v| :: w[k] <= v[k] {
      SumOfBounds(w, v);
    }
    i :| 0 <= i < |v| && v[i] < w[i];
  }

  // ----- The squeeze, as it is computed -----

  /** The widest cell of a column, but no less than its floor. */
  predicate IsNatural(rows: seq<seq<Text>>, floor: int, column: nat, w: int) {
    && floor <= w && (forall row | row in rows && column < |row| :: DisplayWidth(row[column]) <= w)
    && (w == floor || exists row :: row in rows && column < |row| && DisplayWidth(row[column]) == w)
  }

  method NaturalWidths(rows: seq<seq<Text>>, floors: seq<int>) returns (w: seq<int>)
    ensures |w| == |floors| && forall c | 0 <= c < |floors| :: IsNatural(rows, floors[c], c, w[c])
  {
    w := floors;
    for i := 0 to |rows|
      invariant |w| == |floors|
      invariant forall c | 0 <= c < |floors| :: IsNatural(rows[..i], floors[c], c, w[c])
    {
      var n := if |floors| <= |rows[i]| then |floors| else |rows[i]|;
      assert rows[..i + 1] == rows[..i] + [rows[i]];
      for c := 0 to n
        invariant |w| == |floors|
        invariant forall d | c <= d < |floors| :: IsNatural(rows[..i], floors[d], d, w[d])
        invariant forall d | 0 <= d < c :: IsNatural(rows[..i + 1], floors[d], d, w[d])
      {
        var width := DisplayWidth(rows[i][c]);
        OneMoreRow(rows[..i], rows[i], floors[c], c, w[c]);
        w := w[c := if width > w[c] then width else w[c]];
      }
      forall d | n <= d < |floors|
        ensures IsNatural(rows[..i + 1], floors[d], d, w[d])
      {
        OneMoreRow(rows[..i], rows[i], floors[d], d, w[d]);
      }
    }
    assert rows[..|rows|] == rows;
  }

  lemma OneMoreRow(rows: seq<seq<Text>>, row: seq<Text>, floor: int, column: nat, w: int)
    requires IsNatural(rows, floor, column, w)
    ensures column >= |row| ==> IsNatural(rows + [row], floor, column, w)
    ensures column < |row| ==>
      var width := DisplayWidth(row[column]);
      IsNatural(rows + [row], floor, column, if width > w then width else w)
  {
    assert row in rows + [row];
  }

  /** The columns, widest first and left before right. */
  method WidestFirst(w: seq<int>) returns (order: seq<nat>)
    ensures IsOrder(w, order)
  {
    order := [];
    for i := 0 to |w|
      invariant forall k | 0 <= k < |order| :: order[k] < i
      invariant forall k, l | 0 <= k < l < |order| :: Before(w, order[k], order[l])
      invariant forall j: nat | j < i :: j in order
    {
      var k := 0;
      while k < |order| && w[order[k]] >= w[i]
        invariant 0 <= k <= |order| && forall l | 0 <= l < k :: w[order[l]] >= w[i]
      {
        k := k + 1;
      }
      ghost var was := order;
      order := order[..k] + [i] + order[k..];
      forall j: nat | j <= i
        ensures j in order
      {
        if j < i {
          assert j in was;
          var l :| 0 <= l < |was| && was[l] == j;
          assert order[if l < k then l else l + 1] == j;
        } else {
          assert order[k] == j;
        }
      }
    }
  }

  /** Squeeze the columns to their floors, widest first, as far as the surplus asks for. */
  method SqueezeToFloors(natural: seq<int>, floors: seq<int>, surplus: int) returns (w: seq<int>, left: int)
    requires Proper(natural, floors) && surplus > 0
    ensures |w| == |floors| && Squeezed(natural, floors, w)
    ensures left >= 0 && Sum(w) == Sum(natural) - surplus + left && (left > 0 ==> w == floors)
  {
    var order := WidestFirst(natural);
    w, left := natural, surplus;
    var k := 0;
    while k < |order| && left > 0
      invariant 0 <= k <= |order| && left >= 0 && |w| == |floors|
      invariant Sum(w) == Sum(natural) - surplus + left
      invariant PartlySqueezed(natural, floors, w, order, k, left == 0)
    {
      var i := order[k];
      var shrink := if left < w[i] - floors[i] then left else w[i] - floors[i];
      SumUpdate(w, i, w[i] - shrink);
      SqueezeOne(natural, floors, w, order, k, w[i] - shrink, left == shrink);
      w := w[i := w[i] - shrink];
      left := left - shrink;
      k := k + 1;
    }
    SqueezeDone(natural, floors, w, order, k, left == 0);
  }

  predicate IsOrder(natural: seq<int>, order: seq<nat>) {
    && (forall k | 0 <= k < |order| :: order[k] < |natural|)
    && (forall k, l | 0 <= k < l < |order| :: Before(natural, order[k], order[l]))
    && forall i: nat | i < |natural| :: i in order
  }

  /** The first k columns of the order are at their floors, the k-th perhaps not quite when the surplus is used up. */
  predicate PartlySqueezed(natural: seq<int>, floors: seq<int>, w: seq<int>, order: seq<nat>, k: nat, done: bool)
    requires |natural| == |floors| == |w| && k <= |order|
  {
    && IsOrder(natural, order)
    && (forall i | 0 <= i < |w| :: floors[i] <= w[i] <= natural[i])
    && (forall l | k <= l < |order| :: w[order[l]] == natural[order[l]])
    && forall l | 0 <= l < k && (!done || l < k - 1) :: w[order[l]] == floors[order[l]]
  }

  lemma SqueezeOne(natural: seq<int>, floors: seq<int>, w: seq<int>, order: seq<nat>, k: nat, v: int, done: bool)
    requires |natural| == |floors| == |w| && k < |order|
    requires PartlySqueezed(natural, floors, w, order, k, false)
    requires floors[order[k]] <= v <= natural[order[k]] && (!done ==> v == floors[order[k]])
    ensures PartlySqueezed(natural, floors, w[order[k] := v], order, k + 1, done)
  {
    forall l | 0 <= l < |order| && l != k
      ensures order[l] != order[k]
    {
      assert l < k ==> Before(natural, order[l], order[k]);
      assert k < l ==> Before(natural, order[k], order[l]);
    }
  }

  lemma SqueezeDone(natural: seq<int>, floors: seq<int>, w: seq<int>, order: seq<nat>, k: nat, done: bool)
    requires |natural| == |floors| == |w| && k <= |order| && (!done ==> k == |order|)
    requires PartlySqueezed(natural, floors, w, order, k, done)
    ensures Squeezed(natural, floors, w) && (!done ==> w == floors)
  {
    forall i: nat, j: nat | i < |w| && j < |w| && Before(natural, i, j) && w[j] < natural[j]
      ensures w[i] == floors[i]
    {
      assert i in order && j in order;
      var a :| 0 <= a < |order| && order[a] == i;
      var b :| 0 <= b < |order| && order[b] == j;
    }
    forall i: nat | i < |w| && !done
      ensures w[i] == floors[i]
    {
      assert i in order;
    }
  }

  /** Take single columns off the widest until the surplus is gone or every column is one wide. */
  method ShaveWidest(floors: seq<int>, surplus: int) returns (w: seq<int>)
    requires (forall i | 0 <= i < |floors| :: 1 <= floors[i]) && surplus > 0
    ensures |w| == |floors| && Shaved(floors, w)
    ensures Sum(w) == Sum(floors) - surplus || (Sum(w) > Sum(floors) - surplus && w == Ones(|w|))
  {
    w := floors;
    var left := surplus;
    var shrinkable: seq<nat> := [];
    for i := 0 to |w|
      invariant IsShrinkable(w, shrinkable, i)
    {
      if w[i] > 1 {
        shrinkable := shrinkable + [i];
      }
    }
    while left > 0 && shrinkable != []
      invariant left >= 0 && |w| == |floors|
      invariant Sum(w) == Sum(floors) - surplus + left
      invariant Shaved(floors, w) && IsShrinkable(w, shrinkable, |w|)
      decreases left
    {
      var at := Widest(w, shrinkable);
      var i := shrinkable[at];
      SumUpdate(w, i, w[i] - 1);
      ShaveOne(floors, w, i);
      ShrinkOne(w, shrinkable, at);
      w := w[i := w[i] - 1];
      left := left - 1;
      if w[i] <= 1 {
        shrinkable := shrinkable[..at] + shrinkable[at + 1..];
      }
    }
    if left > 0 {
      assert w == Ones(|w|);
    }
  }

  predicate IsWidest(w: seq<int>, i: nat)
    requires i < |w|
  {
    forall j | 0 <= j < |w| :: w[j] <= w[i] && (j < i ==> w[j] < w[i])
  }

  lemma ShaveOne(floors: seq<int>, w: seq<int>, i: nat)
    requires |floors| == |w| && i < |w|
    requires Shaved(floors, w) && IsWidest(w, i) && w[i] > 1
    ensures Shaved(floors, w[i := w[i] - 1])
  {}

  lemma ShrinkOne(w: seq<int>, s: seq<nat>, at: nat)
    requires at < |s| && IsShrinkable(w, s, |w|)
    ensures var v := w[s[at] := w[s[at]] - 1];
      IsShrinkable(v, if v[s[at]] <= 1 then s[..at] + s[at + 1..] else s, |v|)
  {
    if w[s[at]] - 1 <= 1 {
      Without(w, s, at);
    }
  }

  lemma Without(w: seq<int>, s: seq<nat>, at: nat)
    requires at < |s| && IsShrinkable(w, s, |w|)
    ensures IsShrinkable(w[s[at] := 1], s[..at] + s[at + 1..], |w|)
  {
    var r, v := s[..at] + s[at + 1..], w[s[at] := 1];
    assert forall k | 0 <= k < |r| :: r[k] == s[if k < at then k else k + 1];
    forall j: nat | j < |v| && v[j] > 1
      ensures j in r
    {
      assert j in s;
      var k :| 0 <= k < |s| && s[k] == j;
      assert r[if k < at then k else k - 1] == j;
    }
  }

  /** The columns among the first n that are wider than one, from left to right. */
  predicate IsShrinkable(w: seq<int>, s: seq<nat>, n: nat)
    requires n <= |w|
  {
    && (forall k | 0 <= k < |s| :: s[k] < n && w[s[k]] > 1)
    && (forall k, l | 0 <= k < l < |s| :: s[k] < s[l])
    && forall i: nat | i < n && w[i] > 1 :: i in s
  }

  method Widest(w: seq<int>, s: seq<nat>) returns (at: nat)
    requires s != [] && IsShrinkable(w, s, |w|)
    ensures at < |s| && IsWidest(w, s[at])
  {
    at := 0;
    for k := 1 to |s|
      invariant at < k && forall l | 0 <= l < k :: w[s[l]] <= w[s[at]] && (l < at ==> w[s[l]] < w[s[at]])
    {
      if w[s[k]] > w[s[at]] {
        at := k;
      }
    }
    forall j: nat | j < |w|
      ensures w[j] <= w[s[at]] && (j < s[at] ==> w[j] < w[s[at]])
    {
      if w[j] > 1 {
        assert j in s;
        var l :| 0 <= l < |s| && s[l] == j;
      }
    }
  }

  ghost predicate IsLayout(rows: seq<seq<Text>>, floors: seq<int>, budget: int, w: seq<int>) {
    exists natural: seq<int> | |natural| == |floors| && Fitted(natural, floors, budget, w) ::
      forall c | 0 <= c < |floors| :: IsNatural(rows, floors[c], c, natural[c])
  }

  method ColumnWidths(rows: seq<seq<Text>>, floors: seq<int>, budget: int) returns (w: seq<int>)
    requires forall i | 0 <= i < |floors| :: floors[i] >= 1
    ensures IsLayout(rows, floors, budget, w)
  {
    var natural := NaturalWidths(rows, floors);
    assert Proper(natural, floors) by {
      assert forall c | 0 <= c < |floors| :: IsNatural(rows, floors[c], c, natural[c]);
    }
    SumOfOnes(|floors|);
    var surplus := Sum(natural) - budget;
    if surplus <= 0 {
      assert Squeezed(natural, floors, natural);
      return natural;
    }
    var left;
    w, left := SqueezeToFloors(natural, floors, surplus);
    SumOfBounds(Ones(|w|), w);
    if left > 0 {
      w := ShaveWidest(w, left);
      SumOfBounds(Ones(|w|), w);
    }
    assert Fitted(natural, floors, budget, w);
  }

  // ----- The rendered lines -----

  function Blank(n: int): Text { Repeat(SPACE, n) }

  /** The width of a row of columns and the gaps in between. */
  function RowWidth(w: seq<int>): int { if w == [] then 0 else Sum(w) + PAD * (|w| - 1) }

  function Padded(cell: Text, width: int): Text { cell + Blank(width - DisplayWidth(cell)) }

  function Gap(n: nat): Text { if n == 0 then [] else Blank(PAD) }

  /** The first n cells side by side, each padded on the right to its column, two spaces in between. */
  function Joined(cells: seq<Text>, w: seq<int>, n: nat): Text
    requires n <= |cells| && n <= |w|
  {
    if n == 0 then [] else Joined(cells, w, n - 1) + Gap(n - 1) + Padded(cells[n - 1], w[n - 1])
  }

  ghost predicate AreFitted(row: seq<Text>, w: seq<int>, cells: seq<Text>) {
    |cells| <= |row| == |w| && forall i | 0 <= i < |cells| :: IsFit(row[i], w[i], cells[i])
  }

  /** The line of a row: its own cells, fitted, joined. */
  ghost predicate IsLine(row: seq<Text>, w: seq<int>, line: Text) {
    exists cells :: |cells| == |row| && AreFitted(row, w, cells) && line == Joined(cells, w, |w|)
  }

  ghost predicate IsRow(row: seq<Text>, w: seq<int>, line: Text) {
    IsLine(row, w, line) && DisplayWidth(line) == RowWidth(w)
  }

  /** Line by line, the rows and no others. */
  ghost predicate AreRows(rows: seq<seq<Text>>, w: seq<int>, lines: seq<Text>) {
    |lines| == |rows| && forall i | 0 <= i < |rows| :: IsRow(rows[i], w, lines[i])
  }

  method Line(row: seq<Text>, w: seq<int>) returns (line: Text)
    requires |row| == |w| && forall i | 0 <= i < |w| :: w[i] >= 0
    ensures IsRow(row, w, line)
  {
    line := [];
    ghost var cells: seq<Text> := [];
    for i := 0 to |row|
      invariant |cells| == i && AreFitted(row, w, cells) && line == Joined(cells, w, i)
    {
      var cell := Fit(row[i], w[i]);
      JoinedIgnoresTheRest(cells, [cell], w, i);
      line := line + Gap(i) + Padded(cell, w[i]);
      cells := cells + [cell];
    }
    JoinedWidth(row, w, cells, |w|);
    assert w[..|w|] == w;
  }

  lemma {:induction false} JoinedIgnoresTheRest(cells: seq<Text>, more: seq<Text>, w: seq<int>, n: nat)
    requires n <= |cells| && n <= |w|
    ensures Joined(cells + more, w, n) == Joined(cells, w, n)
  {
    if n > 0 {
      JoinedIgnoresTheRest(cells, more, w, n - 1);
    }
  }

  /** The width of the first n columns and the gaps in between. */
  function WidthOf(w: seq<int>, n: nat): int
    requires n <= |w|
  {
    if n == 0 then 0 else Sum(w[..n]) + PAD * (n - 1)
  }

  lemma {:induction false} JoinedWidth(row: seq<Text>, w: seq<int>, cells: seq<Text>, n: nat)
    requires AreFitted(row, w, cells) && n <= |cells| && forall i | 0 <= i < |w| :: w[i] >= 0
    ensures DisplayWidth(Joined(cells, w, n)) == WidthOf(w, n)
  {
    if n > 0 {
      JoinedWidth(row, w, cells, n - 1);
      ThreeWidths(Joined(cells, w, n - 1), Gap(n - 1), Padded(cells[n - 1], w[n - 1]));
      GapWidth(n - 1);
      PaddedWidth(row[n - 1], w[n - 1], cells[n - 1]);
      WidthOfOneMore(w, n);
    }
  }

  lemma WidthOfOneMore(w: seq<int>, n: nat)
    requires 0 < n <= |w|
    ensures WidthOf(w, n) == WidthOf(w, n - 1) + (if n == 1 then 0 else PAD) + w[n - 1]
  {
    assert w[..n][..n - 1] == w[..n - 1];
    if n == 1 {
      assert w[..0] == [] && Sum([]) == 0;
    }
  }

  lemma GapWidth(n: nat)
    ensures DisplayWidth(Gap(n)) == if n == 0 then 0 else PAD
  {
    RepeatWidth(SPACE, PAD);
  }

  lemma ThreeWidths(a: Text, b: Text, c: Text)
    ensures DisplayWidth(a + b + c) == DisplayWidth(a) + DisplayWidth(b) + DisplayWidth(c)
  {
    WidthConcat(a, b);
    WidthConcat(a + b, c);
  }

  lemma PaddedWidth(t: Text, width: int, cell: Text)
    requires IsFit(t, width, cell) && width >= 0
    ensures DisplayWidth(Padded(cell, width)) == width
  {
    FitsInside(t, width, cell);
    RepeatWidth(SPACE, width - DisplayWidth(cell));
    WidthConcat(cell, Blank(width - DisplayWidth(cell)));
  }

  predicate StandsAt(line: Text, cell: Text, o: nat, column: int) {
    o + |cell| <= |line| && line[o..o + |cell|] == cell && DisplayWidth(line[..o]) == column
  }

  /** The columns line up: every cell stands whole at the display column where its own column begins in every row. */
  lemma CellStandsInItsColumn(row: seq<Text>, w: seq<int>, cells: seq<Text>, i: nat) returns (o: nat)
    requires |cells| == |row| && AreFitted(row, w, cells) && i < |w| && forall j | 0 <= j < |w| :: w[j] >= 0
    ensures StandsAt(Joined(cells, w, |w|), cells[i], o, if i == 0 then 0 else WidthOf(w, i) + PAD)
  {
    var front := Joined(cells, w, i) + Gap(i);
    JoinedWidth(row, w, cells, i);
    GapWidth(i);
    WidthConcat(Joined(cells, w, i), Gap(i));
    o := |front|;
    LastStands(front, cells[i], Blank(w[i] - DisplayWidth(cells[i])), DisplayWidth(front));
    JoinedGrows(cells, w, i + 1, |w|);
    StillStands(Joined(cells, w, i + 1), Joined(cells, w, |w|), cells[i], o, DisplayWidth(front));
  }

  lemma {:induction false} JoinedGrows(cells: seq<Text>, w: seq<int>, m: nat, n: nat)
    requires m <= n <= |cells| && n <= |w|
    ensures Joined(cells, w, m) <= Joined(cells, w, n)
    decreases n
  {
    if m < n {
      JoinedGrows(cells, w, m, n - 1);
    }
  }

  lemma StillStands(front: Text, line: Text, cell: Text, o: nat, column: int)
    requires StandsAt(front, cell, o, column) && front <= line
    ensures StandsAt(line, cell, o, column)
  {
    PrefixKeepsSlices(front, line, o, o + |cell|);
  }

  lemma LastStands(front: Text, cell: Text, padding: Text, column: int)
    requires DisplayWidth(front) == column
    ensures StandsAt(front + (cell + padding), cell, |front|, column)
  {
    var line := front + (cell + padding);
    assert line[..|front|] == front && line[|front|..|front| + |cell|] == cell;
  }

  lemma PrefixKeepsSlices(front: Text, line: Text, i: nat, j: nat)
    requires front <= line && i <= j <= |front|
    ensures line[..i] == front[..i] && line[i..j] == front[i..j]
  {}

  /** The display columns a table is given: the caller's budget or the terminal's, and never less than twenty. */
  function Available(budget: Option<int>, terminal: int): (available: int)
    ensures available >= 20 && available >= budget.GetOr(terminal)
    ensures available == 20 || available == budget.GetOr(terminal)
  {
    var columns := budget.GetOr(terminal);
    if columns > 20 then columns else 20
  }

  /** The lines of a table: equally wide rows between two borders. The border always fits, and the rows fit exactly when
      every column can have one display column at least. */
  method RenderPoolTable(rows: seq<seq<Text>>, floors: seq<int>, budget: Option<int>, terminal: int)
    returns (lines: seq<Text>, w: seq<int>)
    requires forall i | 0 <= i < |floors| :: floors[i] >= 1
    requires forall row | row in rows :: |row| == |floors|
    ensures IsTable(rows, w, Available(budget, terminal), lines)
    ensures IsLayout(rows, floors, Available(budget, terminal) - PAD * (|floors| - 1), w)
    ensures RowWidth(w) <= Available(budget, terminal) <==> |floors| + PAD * (|floors| - 1) <= Available(budget, terminal)
  {
    var available := Available(budget, terminal);
    w := ColumnWidths(rows, floors, available - PAD * (|floors| - 1));
    LayoutFits(rows, floors, available - PAD * (|floors| - 1), w);
    lines := Framed(rows, w, available);
  }

  /** The rows, line by line, between two equal borders. */
  ghost predicate IsTable(rows: seq<seq<Text>>, w: seq<int>, available: int, lines: seq<Text>) {
    && |lines| == |rows| + 2 && lines[0] == lines[|rows| + 1]
    && AreRows(rows, w, lines[1..|rows| + 1]) && IsBorder(lines[0], Min(available, RowWidth(w)))
  }

  function Min(a: int, b: int): (m: int)
    ensures m <= a && m <= b && (m == a || m == b)
  {
    if a < b then a else b
  }

  /** As wide as it may be, or one column less: its characters take two. */
  predicate IsBorder(line: Text, width: int) {
    width - 1 <= DisplayWidth(line) <= width && forall c | c in line :: c == RULE
  }

  /** A rule of two-column characters. Without columns the computed width is negative, and the rule empty. */
  method Border(w: seq<int>, available: int) returns (border: Text)
    requires RowWidth(w) >= 0 && available >= 0
    ensures IsBorder(border, Min(available, RowWidth(w)))
  {
    var width := Min(available, Sum(w) + PAD * (|w| - 1));
    border := Repeat(RULE, width / 2);
    RepeatWidth(RULE, width / 2);
  }

  method Framed(rows: seq<seq<Text>>, w: seq<int>, available: int) returns (lines: seq<Text>)
    requires (forall i | 0 <= i < |w| :: w[i] >= 0) && forall row | row in rows :: |row| == |w|
    requires RowWidth(w) >= 0 && available >= 0
    ensures IsTable(rows, w, available, lines)
  {
    var border := Border(w, available);
    var body := Lines(rows, w);
    lines := [border] + body + [border];
    assert lines[0] == border && lines[1..|rows| + 1] == body;
  }

  method Lines(rows: seq<seq<Text>>, w: seq<int>) returns (lines: seq<Text>)
    requires (forall i | 0 <= i < |w| :: w[i] >= 0) && forall row | row in rows :: |row| == |w|
    ensures AreRows(rows, w, lines)
  {
    lines := [];
    for i := 0 to |rows|
      invariant AreRows(rows[..i], w, lines)
    {
      var line := Line(rows[i], w);
      OneMoreRowLine(rows, w, lines, i, line);
      lines := lines + [line];
    }
    assert rows[..|rows|] == rows;
  }

  lemma OneMoreRowLine(rows: seq<seq<Text>>, w: seq<int>, lines: seq<Text>, i: nat, line: Text)
    requires i < |rows| && AreRows(rows[..i], w, lines) && IsRow(rows[i], w, line)
    ensures AreRows(rows[..i + 1], w, lines + [line])
  {
    forall j | 0 <= j < i + 1
      ensures IsRow(rows[..i + 1][j], w, (lines + [line])[j])
    {
      assert j < i ==> rows[..i + 1][j] == rows[..i][j] && IsRow(rows[..i][j], w, lines[j]);
    }
  }

  lemma LayoutFits(rows: seq<seq<Text>>, floors: seq<int>, budget: int, w: seq<int>)
    requires IsLayout(rows, floors, budget, w) && forall i | 0 <= i < |floors| :: floors[i] >= 1
    ensures |w| == |floors| && forall i | 0 <= i < |w| :: w[i] >= 1
    ensures Sum(w) >= |w| && (Sum(w) <= budget <==> |floors| <= budget)
  {
    var natural: seq<int> :| |natural| == |floors| && Fitted(natural, floors, budget, w);
    SumOfOnes(|w|);
    SumOfBounds(Ones(|w|), w);
  }

  // ----- What the squeeze means -----

  /** No column is below its floor while another is above its floor. */
  lemma FloorsBeforeShaving(natural: seq<int>, floors: seq<int>, budget: int, w: seq<int>, i: nat, j: nat)
    requires Proper(natural, floors) && Fitted(natural, floors, budget, w) && i < |w| && j < |w|
    requires w[i] < floors[i]
    ensures w[j] <= floors[j] && w[j] <= w[i] + 1
  {}

  /** Columns are below their floors exactly when the floors alone are too much for the budget. */
  lemma ShavedExactlyWhenFloorsOverflow(natural: seq<int>, floors: seq<int>, budget: int, w: seq<int>)
    requires Proper(natural, floors) && Fitted(natural, floors, budget, w)
    ensures (exists i :: 0 <= i < |w| && w[i] < floors[i]) <==> Sum(floors) > budget && Sum(floors) > |floors|
  {
    SumOfBounds(floors, natural);
    SumOfOnes(|floors|);
    SumOfBounds(Ones(|floors|), floors);
    if forall i | 0 <= i < |w| :: w[i] >= floors[i] {
      SumOfBounds(floors, w);
    } else {
      assert Shaved(floors, w);
      SumOfBounds(w, floors);
    }
  }

  // The floors of the two tables; the status column is the third.
  const LIST_FLOORS: seq<int> := [6, 8, 16, 10]
  const STATUS_FLOORS: seq<int> := [6, 8, 16, 8, 6]

  /** A column with the highest floor gives way first: it keeps its floor exactly as long as the budget covers all floors. */
  lemma HighestFloorGivesWayFirst(natural: seq<int>, floors: seq<int>, budget: int, w: seq<int>, k: nat)
    requires Proper(natural, floors) && Fitted(natural, floors, budget, w) && k < |floors|
    requires floors[k] >= 2 && forall i | 0 <= i < |floors| && i != k :: floors[i] < floors[k]
    ensures w[k] >= floors[k] <==> budget >= Sum(floors)
  {
    SumOfBounds(floors, natural);
    SumOfOnes(|floors|);
    SumUpdate(floors, k, floors[k] - 1);
    SumOfBounds(Ones(|floors|), floors[k := floors[k] - 1]);
    if Squeezed(natural, floors, w) {
      SumOfBounds(floors, w);
    } else if w[k] < floors[k] {
      SumOfBounds(w, floors);
    } else if forall i | 0 <= i < |w| :: w[i] >= floors[i] {
      SumOfBounds(floors, w);
    }
  }

  /** The sixteen columns of the longest status cell are shown in full exactly from a width of 46 (list) and 52 (status) on. */
  lemma LongestStatusIsWholeExactlyFrom(natural: seq<int>, available: int, w: seq<int>)
    ensures Proper(natural, LIST_FLOORS) && Fitted(natural, LIST_FLOORS, available - PAD * 3, w) ==>
      (w[2] >= 16 <==> available >= 46)
    ensures Proper(natural, STATUS_FLOORS) && Fitted(natural, STATUS_FLOORS, available - PAD * 4, w) ==>
      (w[2] >= 16 <==> available >= 52)
  {
    assert [6, 8, 16, 10][..3] == [6, 8, 16] && [6, 8, 16][..2] == [6, 8] && [6, 8][..1] == [6] && [6][..0] == [];
    assert Sum([6]) == 6;
    assert Sum([6, 8, 16]) == 30;
    assert [6, 8, 16, 8, 6][..4] == [6, 8, 16, 8] && [6, 8, 16, 8][..3] == [6, 8, 16];
    assert Sum([6, 8, 16, 8]) == 38;
    if Proper(natural, LIST_FLOORS) && Fitted(natural, LIST_FLOORS, available - PAD * 3, w) {
      HighestFloorGivesWayFirst(natural, LIST_FLOORS, available - PAD * 3, w, 2);
    }
    if Proper(natural, STATUS_FLOORS) && Fitted(natural, STATUS_FLOORS, available - PAD * 4, w) {
      HighestFloorGivesWayFirst(natural, STATUS_FLOORS, available - PAD * 4, w, 2);
    }
  }
}
