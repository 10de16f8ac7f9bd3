/** The sparse vector of the documentation search engine (docs/assets/js/application.js:1985-2016):
    one flat list of ascending indexes, each followed by its value, with a cached length. */
module Vectors {
  /** JavaScript numbers, without rounding. */
  type Number = real

  // ---------------------------------------------------------- specification

  function Key(e: seq<Number>, i: nat): Number
    requires 2 * i < |e|
  {
    e[2 * i]
  }

  function Val(e: seq<Number>, i: nat): Number
    requires 2 * i + 1 < |e|
  {
    e[2 * i + 1]
  }

  /** The flat list alternates indexes and values; the indexes ascend. */
  ghost predicate Ascending(e: seq<Number>) {
    && |e| % 2 == 0
    && forall i, j | 0 <= i < j < |e| / 2 :: Key(e, i) < Key(e, j)
  }

  /** The plain map behind a flat list. */
  ghost function AsMap(e: seq<Number>): map<Number, Number>
    requires Ascending(e)
  {
    map i | 0 <= i < |e| / 2 :: Key(e, i) := Val(e, i)
  }

  /** p is where the index x stands or belongs. */
  ghost predicate Position(e: seq<Number>, x: Number, p: nat) {
    && p % 2 == 0 && p <= |e| && |e| % 2 == 0
    && (forall i | 0 <= i < p / 2 :: Key(e, i) < x)
    && (forall i | p / 2 <= i < |e| / 2 :: Key(e, i) >= x)
  }

  function Times(x: Number, y: Number): Number { x * y }

  /** The products of the values under shared indexes, summed from the i-th entry on. */
  ghost function SharedSum(e: seq<Number>, m: map<Number, Number>, i: nat): Number
    requires |e| % 2 == 0 && i <= |e| / 2
    decreases |e| / 2 - i
  {
    if i == |e| / 2 then 0.0
    else (if Key(e, i) in m then Times(Val(e, i), m[Key(e, i)]) else 0.0) + SharedSum(e, m, i + 1)
  }

  ghost function SumOfSquares(e: seq<Number>, i: nat): Number
    requires |e| % 2 == 0 && i <= |e| / 2
    decreases |e| / 2 - i
  {
    if i == |e| / 2 then 0.0 else Times(Val(e, i), Val(e, i)) + SumOfSquares(e, i + 1)
  }

  // ------------------------------------------------------------------- laws

  /** A vector's dot product with itself is its squared length. */
  lemma {:induction false} DotSelf(e: seq<Number>, i: nat)
    requires Ascending(e) && i <= |e| / 2
    ensures SharedSum(e, AsMap(e), i) == SumOfSquares(e, i)
    decreases |e| / 2 - i
  {
    if i < |e| / 2 {
      DotSelf(e, i + 1);
      assert Key(e, i) in AsMap(e);
    }
  }

  /** Vectors of one entry under one index have the product of the entries. */
  lemma DotOfOne(x: Number, v: Number, w: Number)
    ensures Ascending([x, v]) && Ascending([x, w]) && SharedSum([x, v], AsMap([x, w]), 0) == v * w
  {
    var e, f := [x, v], [x, w];
    assert Key(f, 0) == x && Val(f, 0) == w && Key(e, 0) == x && Val(e, 0) == v;
    assert x in AsMap(f);
    assert SharedSum(e, AsMap(f), 1) == 0.0;
  }

  /** Cursors at i and j: what lies before one is below what lies from the other on. */
  ghost predicate Cursors(e: seq<Number>, f: seq<Number>, i: nat, j: nat) {
    && |e| % 2 == 0 && |f| % 2 == 0 && i <= |e| / 2 && j <= |f| / 2
    && (forall k, l | 0 <= k < j && i <= l < |e| / 2 :: Key(f, k) < Key(e, l))
    && (forall k, l | 0 <= k < i && j <= l < |f| / 2 :: Key(e, k) < Key(f, l))
  }

  lemma CursorsSwap(e: seq<Number>, f: seq<Number>, i: nat, j: nat)
    requires Cursors(e, f, i, j)
    ensures Cursors(f, e, j, i)
  {
  }

  lemma SmallerIsAlone(e: seq<Number>, f: seq<Number>, i: nat, j: nat)
    requires Ascending(e) && Ascending(f) && Cursors(e, f, i, j) && i < |e| / 2
    requires j < |f| / 2 ==> Key(e, i) < Key(f, j)
    ensures Key(e, i) !in AsMap(f) && Cursors(e, f, i + 1, j)
  {
    forall l | j <= l < |f| / 2 ensures Key(e, i) < Key(f, l) {
      assert l == j || Key(f, j) < Key(f, l);
    }
    assert forall k | 0 <= k < |f| / 2 :: Key(f, k) != Key(e, i);
  }

  lemma EqualIsShared(e: seq<Number>, f: seq<Number>, i: nat, j: nat)
    requires Ascending(e) && Ascending(f) && Cursors(e, f, i, j) && i < |e| / 2 && j < |f| / 2
    requires Key(e, i) == Key(f, j)
    ensures Key(e, i) in AsMap(f) && AsMap(f)[Key(e, i)] == Val(f, j)
    ensures Cursors(e, f, i + 1, j + 1)
  {
    assert Key(f, j) in AsMap(f);
    forall l | j < l < |f| / 2 ensures Key(e, i) < Key(f, l) { }
    forall l | i < l < |e| / 2 ensures Key(f, j) < Key(e, l) { }
  }

  /** The dot product does not depend on the order of its operands. */
  lemma {:induction false} DotSymmetric(e: seq<Number>, f: seq<Number>, i: nat, j: nat)
    requires Ascending(e) && Ascending(f) && Cursors(e, f, i, j)
    ensures SharedSum(e, AsMap(f), i) == SharedSum(f, AsMap(e), j)
    decreases |e| / 2 - i + |f| / 2 - j
  {
    hide Times, AsMap;
    CursorsSwap(e, f, i, j);
    if i == |e| / 2 {
      AllAlone(f, e, j, i);
    } else if j == |f| / 2 {
      AllAlone(e, f, i, j);
    } else if Key(e, i) < Key(f, j) {
      SmallerIsAlone(e, f, i, j);
      DotSymmetric(e, f, i + 1, j);
    } else if Key(e, i) > Key(f, j) {
      SmallerIsAlone(f, e, j, i);
      CursorsSwap(f, e, j + 1, i);
      DotSymmetric(e, f, i, j + 1);
    } else {
      EqualIsShared(e, f, i, j);
      EqualIsShared(f, e, j, i);
      DotSymmetric(e, f, i + 1, j + 1);
      TimesCommutes(Val(e, i), Val(f, j));
    }
  }

  lemma TimesCommutes(x: Number, y: Number)
    ensures Times(x, y) == Times(y, x)
  {
  }

  lemma {:induction false} AllAlone(e: seq<Number>, f: seq<Number>, i: nat, j: nat)
    requires Ascending(e) && Ascending(f) && Cursors(e, f, i, j) && j == |f| / 2
    ensures SharedSum(e, AsMap(f), i) == 0.0
    decreases |e| / 2 - i
  {
    if i < |e| / 2 {
      SmallerIsAlone(e, f, i, j);
      AllAlone(e, f, i + 1, j);
    }
  }

  // ----------------------------------------------------------------- splice

  lemma OverwriteIsUpdate(e: seq<Number>, i: nat, y: Number)
    requires Ascending(e) && i < |e| / 2
    ensures var e' := e[2 * i + 1 := y];
            Ascending(e') && AsMap(e') == AsMap(e)[Key(e, i) := y]
  {
    var e' := e[2 * i + 1 := y];
    forall k: nat | k < |e| / 2 ensures Key(e', k) == Key(e, k) && Val(e', k) == if k == i then y else Val(e, k) { }
    assert Key(e', i) in AsMap(e');
    forall x | x in AsMap(e) ensures x in AsMap(e') {
      var k :| 0 <= k < |e| / 2 && Key(e, k) == x;
      assert Key(e', k) == x;
    }
  }

  function Splice(e: seq<Number>, p: nat, x: Number, y: Number): seq<Number>
    requires p <= |e|
  {
    e[..p] + [x, y] + e[p..]
  }

  lemma SplicedKeys(e: seq<Number>, p: nat, x: Number, y: Number, k: nat)
    requires p <= |e| && p % 2 == 0 && |e| % 2 == 0 && k < |e| / 2 + 1
    ensures var e' := Splice(e, p, x, y);
            Key(e', k) == (if k < p / 2 then Key(e, k) else if k == p / 2 then x else Key(e, k - 1)) &&
            Val(e', k) == (if k < p / 2 then Val(e, k) else if k == p / 2 then y else Val(e, k - 1))
  {
  }

  /** x belongs at p and is not there. */
  ghost predicate Gap(e: seq<Number>, x: Number, p: nat) {
    && Ascending(e) && p % 2 == 0 && p <= |e|
    && (forall i | 0 <= i < p / 2 :: Key(e, i) < x)
    && (forall i | p / 2 <= i < |e| / 2 :: x < Key(e, i))
  }

  lemma PositionIsGap(e: seq<Number>, x: Number, p: nat)
    requires Ascending(e) && Position(e, x, p) && (p == |e| || e[p] != x)
    ensures Gap(e, x, p) && x !in AsMap(e)
  {
    if p < |e| {
      assert Key(e, p / 2) == e[p];
      forall k | p / 2 <= k < |e| / 2 ensures x < Key(e, k) {
        assert k == p / 2 || Key(e, p / 2) < Key(e, k);
      }
    }
  }

  lemma SpliceAscends(e: seq<Number>, p: nat, x: Number, y: Number)
    requires Gap(e, x, p)
    ensures Ascending(Splice(e, p, x, y))
  {
    var e' := Splice(e, p, x, y);
    forall i, j | 0 <= i < j < |e'| / 2 ensures Key(e', i) < Key(e', j) {
      SplicedKeys(e, p, x, y, i);
      SplicedKeys(e, p, x, y, j);
      var m: nat := p / 2;
      if i < m && j > m { assert Key(e, i) < x < Key(e, j - 1); }
    }
  }

  lemma SpliceIsInsert(e: seq<Number>, p: nat, x: Number, y: Number)
    requires Gap(e, x, p) && x !in AsMap(e)
    ensures Ascending(Splice(e, p, x, y)) && AsMap(Splice(e, p, x, y)) == AsMap(e)[x := y]
  {
    SpliceAscends(e, p, x, y);
    SpliceLength(e, p, x, y);
    var e' := Splice(e, p, x, y);
    hide Splice, Ascending, Gap, AsMap, Key, Val;
    forall z | z in AsMap(e)[x := y] ensures z in AsMap(e') && AsMap(e')[z] == AsMap(e)[x := y][z] {
      var k := if z == x then p / 2 else KeyOf(e, z);
      var k' := if z == x || k < p / 2 then k else k + 1;
      SplicedKeys(e, p, x, y, k');
      MapAt(e', k');
      if z != x { MapAt(e, k); }
    }
    forall z | z in AsMap(e') ensures z in AsMap(e)[x := y] {
      var k := KeyOf(e', z);
      SplicedKeys(e, p, x, y, k);
      if k != p / 2 { MapAt(e, if k < p / 2 then k else k - 1); }
    }
  }

  lemma MapAt(e: seq<Number>, k: nat)
    requires Ascending(e) && k < |e| / 2
    ensures Key(e, k) in AsMap(e) && AsMap(e)[Key(e, k)] == Val(e, k)
  {
  }

  ghost function KeyOf(e: seq<Number>, z: Number): (k: nat)
    requires Ascending(e) && z in AsMap(e)
    ensures k < |e| / 2 && Key(e, k) == z
  {
    var k: nat :| k < |e| / 2 && Key(e, k) == z;
    k
  }

  lemma SpliceLength(e: seq<Number>, p: nat, x: Number, y: Number)
    requires p <= |e|
    ensures |Splice(e, p, x, y)| == |e| + 2
  {
  }

  /** Overwriting the value at its position combines it in the map. */
  lemma OverwriteCombines(e: seq<Number>, r: nat, x: Number, y: Number, fn: (Number, Number) -> Number)
    requires Ascending(e) && Position(e, x, r) && r < |e| && e[r] == x
    ensures r + 1 < |e| && x in AsMap(e)
    ensures var e' := e[r + 1 := fn(e[r + 1], y)]; Ascending(e') && AsMap(e') == AsMap(e)[x := fn(AsMap(e)[x], y)]
  {
    var i := r / 2;
    assert Key(e, i) == x && Val(e, i) == e[r + 1];
    OverwriteIsUpdate(e, i, fn(e[r + 1], y));
    ValueAt(e, i);
    hide AsMap, Ascending, Position;
  }

  lemma ValueAt(e: seq<Number>, i: nat)
    requires Ascending(e) && i < |e| / 2
    ensures Key(e, i) in AsMap(e) && AsMap(e)[Key(e, i)] == Val(e, i)
  {
  }

  // ------------------------------------------------------------------ class

  class Vector {
    var cached: Number
    var elements: seq<Number>
    /** Math.sqrt */
    const sqrt: Number -> Number

    /** The indexes ascend, and a cached length that counts is the current one. */
    ghost predicate Valid()
      reads this
    {
      && Ascending(elements)
      && (cached != 0.0 ==> cached == sqrt(SumOfSquares(elements, 0)))
    }

    constructor (e: seq<Number>, sqrt: Number -> Number)
      requires Ascending(e)
      ensures Valid() && elements == e && this.sqrt == sqrt
    {
      cached := 0.0;
      elements := e;
      this.sqrt := sqrt;
    }

    method PositionForIndex(index: Number) returns (position: nat)
      requires Ascending(elements)
      ensures Position(elements, index, position)
    {
      if |elements| == 0 {
        return 0;
      }
      var start, end := 0, |elements| / 2;
      var sliceLength := end - start;
      var pivotPoint := sliceLength / 2;
      var pivotIndex := elements[2 * pivotPoint];
      while sliceLength > 1
        invariant 0 <= start < end <= |elements| / 2
        invariant sliceLength == end - start
        invariant start <= pivotPoint < end && pivotPoint == start + sliceLength / 2
        invariant pivotIndex == Key(elements, pivotPoint)
        invariant start == 0 || Key(elements, start) < index
        invariant end == |elements| / 2 || Key(elements, end) > index
        decreases end - start
      {
        if pivotIndex < index { start := pivotPoint; }
        if pivotIndex > index { end := pivotPoint; }
        if pivotIndex == index { break; }
        sliceLength := end - start;
        pivotPoint := start + sliceLength / 2;
        pivotIndex := elements[2 * pivotPoint];
      }
      if pivotIndex == index {
        return 2 * pivotPoint;
      }
      if pivotIndex > index {
        return 2 * pivotPoint;
      }
      return 2 * (pivotPoint + 1);
    }

    /** Adds a pair, or combines its value with the one already there. */
    method Upsert(index: Number, value: Number, fn: (Number, Number) -> Number)
      requires Valid()
      modifies this
      ensures Valid()
      ensures var before := old(AsMap(elements));
              AsMap(elements) == before[index := if index in before then fn(before[index], value) else value]
    {
      cached := 0.0;
      var r := PositionForIndex(index);
      if r < |elements| && elements[r] == index {
        OverwriteCombines(elements, r, index, value, fn);
        elements := elements[r + 1 := fn(elements[r + 1], value)];
      } else {
        PositionIsGap(elements, index, r);
        SpliceIsInsert(elements, r, index, value);
        hide Splice;
        elements := Splice(elements, r, index, value);
      }
      hide AsMap, Ascending, SumOfSquares;
    }

    /** Adds a pair; false stands for the thrown "duplicate index", before which the cache is
        dropped and nothing else changes. */
    method Insert(index: Number, value: Number) returns (ok: bool)
      requires Valid()
      modifies this
      ensures Valid()
      ensures ok <==> index !in old(AsMap(elements))
      ensures ok ==> AsMap(elements) == old(AsMap(elements))[index := value]
      ensures !ok ==> elements == old(elements)
    {
      cached := 0.0;
      var r := PositionForIndex(index);
      if r < |elements| && elements[r] == index {
        assert Key(elements, r / 2) == index;
        ok := false;
      } else {
        PositionIsGap(elements, index, r);
        SpliceIsInsert(elements, r, index, value);
        elements := Splice(elements, r, index, value);
        ok := true;
      }
    }

    /** The length, from the cache if it is there. */
    method Magnitude() returns (m: Number)
      requires Valid()
      modifies this`cached
      ensures Valid() && m == cached == sqrt(SumOfSquares(elements, 0))
    {
      if cached != 0.0 {
        return cached;
      }
      var sum, n := 0.0, 0;
      while 2 * n < |elements|
        invariant 0 <= n <= |elements| / 2
        invariant sum + SumOfSquares(elements, n) == SumOfSquares(elements, 0)
      {
        var r := elements[2 * n + 1];
        sum := sum + Times(r, r);
        n := n + 1;
      }
      cached := sqrt(sum);
      m := cached;
    }

    /** One pass over both lists. */
    method Dot(other: Vector) returns (t: Number)
      requires Valid() && other.Valid()
      ensures t == SharedSum(elements, AsMap(other.elements), 0)
    {
      hide Times, AsMap;
      var n, r := elements, other.elements;
      var c, u := 0, 0;
      t := 0.0;
      while 2 * c < |n| && 2 * u < |r|
        invariant Cursors(n, r, c, u)
        invariant t + SharedSum(n, AsMap(r), c) == SharedSum(n, AsMap(r), 0)
        decreases |n| - 2 * c + |r| - 2 * u
      {
        var a, s := n[2 * c], r[2 * u];
        assert a == Key(n, c) && s == Key(r, u);
        if a < s {
          SmallerIsAlone(n, r, c, u);
          c := c + 1;
        } else if a > s {
          CursorsSwap(n, r, c, u);
          SmallerIsAlone(r, n, u, c);
          CursorsSwap(r, n, u + 1, c);
          u := u + 1;
        } else {
          EqualIsShared(n, r, c, u);
          t := t + Times(n[2 * c + 1], r[2 * u + 1]);
          c, u := c + 1, u + 1;
        }
      }
      if 2 * c < |n| { AllAlone(n, r, c, u); }
    }
  }
}
