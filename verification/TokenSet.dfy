/** Word automata of the documentation search engine (docs/assets/js/application.js:2120-2244).

    A TokenSet object is a node: a flag and outgoing edges.  Every node carries a number, so a
    heap of TokenSets is a map from that number to the node.  JavaScript strings are sequences
    of 16-bit code units, compared and sorted by unit. */
module TokenSets {
  import opened Options

  newtype CodeUnit = x: int | 0 <= x < 0x1_0000

  type Word = seq<CodeUnit>

  datatype Node = Node(final: bool, edges: map<CodeUnit, nat>)

  type Graph = map<nat, Node>

  const STAR: CodeUnit := 42

  predicate IsDigit(c: CodeUnit) { 48 <= c <= 57 }

  type Alphabet = set<CodeUnit>

  /** Every edge ends in the graph. */
  ghost predicate Closed(g: Graph) {
    forall q, c | q in g && c in g[q].edges :: g[q].edges[c] in g
  }

  // ---------------------------------------------------------------- language

  /** The node w leads to from q, if the edges are there. */
  function Walk(g: Graph, q: nat, w: Word): Option<nat>
    decreases |w|
  {
    if q !in g then None
    else if w == [] then Some(q)
    else if w[0] in g[q].edges then Walk(g, g[q].edges[w[0]], w[1..])
    else None
  }

  predicate Accepts(g: Graph, q: nat, w: Word)
    decreases |w|
  {
    q in g &&
    if w == [] then g[q].final
    else w[0] in g[q].edges && Accepts(g, g[q].edges[w[0]], w[1..])
  }

  /** No walk from q has more than h edges: the part of the graph below q has no cycle. */
  ghost predicate Shallow(g: Graph, q: nat, h: nat)
    decreases h
  {
    q in g && forall c | c in g[q].edges :: h > 0 && Shallow(g, g[q].edges[c], h - 1)
  }

  lemma {:induction false} AcceptsIsWalk(g: Graph, q: nat, w: Word)
    ensures Walk(g, q, w).Some? ==> Walk(g, q, w).value in g
    ensures Accepts(g, q, w) <==> Walk(g, q, w).Some? && g[Walk(g, q, w).value].final
    decreases |w|
  {
    if q in g && w != [] && w[0] in g[q].edges {
      AcceptsIsWalk(g, g[q].edges[w[0]], w[1..]);
    }
  }

  lemma {:induction false} WalkAppend(g: Graph, q: nat, u: Word, v: Word)
    ensures Walk(g, q, u + v) ==
            if Walk(g, q, u).None? then None else Walk(g, Walk(g, q, u).value, v)
    decreases |u|
  {
    if u == [] {
      assert u + v == v;
    } else if q in g && u[0] in g[q].edges {
      assert (u + v)[1..] == u[1..] + v;
      WalkAppend(g, g[q].edges[u[0]], u[1..], v);
    }
  }

  lemma {:induction false} ShallowMonotone(g: Graph, q: nat, h: nat, h': nat)
    requires Shallow(g, q, h) && h <= h'
    ensures Shallow(g, q, h')
    decreases h
  {
    forall c | c in g[q].edges
      ensures h' > 0 && Shallow(g, g[q].edges[c], h' - 1)
    {
      ShallowMonotone(g, g[q].edges[c], h - 1, h' - 1);
    }
  }

  /** A walk uses up the height. */
  lemma {:induction false} ShallowWalk(g: Graph, q: nat, h: nat, w: Word)
    requires Shallow(g, q, h) && Walk(g, q, w).Some?
    ensures |w| <= h && Shallow(g, Walk(g, q, w).value, h - |w|)
    decreases |w|
  {
    if w != [] {
      ShallowWalk(g, g[q].edges[w[0]], h - 1, w[1..]);
    }
  }

  // --------------------------------------------------------------- signature

  function Decimal(n: nat): (s: Word)
    ensures |s| > 0 && forall i | 0 <= i < |s| :: IsDigit(s[i])
  {
    if n < 10 then [48 + n as CodeUnit] else Decimal(n / 10) + [48 + (n % 10) as CodeUnit]
  }

  lemma {:induction false} DecimalInjective(m: nat, n: nat)
    requires Decimal(m) == Decimal(n)
    ensures m == n
  {
    var s := Decimal(m);
    if m >= 10 && n >= 10 {
      assert s[..|s| - 1] == Decimal(m / 10) == Decimal(n / 10);
      assert s[|s| - 1] == 48 + (m % 10) as CodeUnit == 48 + (n % 10) as CodeUnit;
      DecimalInjective(m / 10, n / 10);
    }
  }

  /** The smallest unit of s that is at least from. */
  function Smallest(s: set<CodeUnit>, from: CodeUnit): (m: CodeUnit)
    requires exists x :: x in s
    requires forall x | x in s :: from <= x
    ensures m in s && forall x | x in s :: m <= x
    decreases 0x1_0000 - from as int
  {
    if from in s then from
    else
      assert forall x | x in s :: from < x;
      Smallest(s, from + 1)
  }

  ghost predicate Ascending(w: Word) {
    forall i, j | 0 <= i < j < |w| :: w[i] < w[j]
  }

  lemma AscendingFrom(m: CodeUnit, w: Word)
    requires Ascending(w) && forall c | c in w :: m < c
    ensures Ascending([m] + w)
  {
    forall i, j | 0 <= i < j < |w| + 1 ensures ([m] + w)[i] < ([m] + w)[j] {
      assert w[j - 1] in w;
    }
  }

  /** Object.keys(edges).sort() */
  function SortedKeys(s: set<CodeUnit>): (keys: Word)
    ensures forall c :: c in keys <==> c in s
    ensures Ascending(keys)
  {
    if s == {} then []
    else
      assert exists x :: x in s;
      var m := Smallest(s, 0);
      var rest := SortedKeys(s - {m});
      AscendingFrom(m, rest);
      [m] + rest
  }

  function EdgeText(keys: Word, edges: map<CodeUnit, nat>): Word
    requires forall c | c in keys :: c in edges
  {
    if keys == [] then []
    else [keys[0]] + Decimal(edges[keys[0]]) + EdgeText(keys[1..], edges)
  }

  /** TokenSet.toString without the cache: the flag, then every edge's character and the
      number of its end, in character order. */
  function Signature(n: Node): Word {
    [if n.final then 49 else 48] + EdgeText(SortedKeys(n.edges.Keys), n.edges)
  }

  /** Where the leading run of digits ends. */
  function DigitRun(w: Word): (k: nat)
    ensures k <= |w|
  {
    if w != [] && IsDigit(w[0]) then 1 + DigitRun(w[1..]) else 0
  }

  lemma {:induction false} DigitRunOf(d: Word, rest: Word)
    requires forall i | 0 <= i < |d| :: IsDigit(d[i])
    requires rest == [] || !IsDigit(rest[0])
    ensures DigitRun(d + rest) == |d|
  {
    if d == [] {
      assert d + rest == rest;
    } else {
      assert (d + rest)[1..] == d[1..] + rest;
      DigitRunOf(d[1..], rest);
    }
  }

  ghost predicate NoDigitBehind(k: Word) {
    forall i | 0 < i < |k| :: !IsDigit(k[i])
  }

  lemma TextStart(k: Word, e: map<CodeUnit, nat>)
    requires forall c | c in k :: c in e
    requires forall i | 0 <= i < |k| :: !IsDigit(k[i])
    ensures EdgeText(k, e) == [] || !IsDigit(EdgeText(k, e)[0])
  {
  }

  /** A text begins with a character, a number and something that does not go on with a digit. */
  lemma TextParts(c1: CodeUnit, n1: nat, t1: Word, c2: CodeUnit, n2: nat, t2: Word)
    requires [c1] + Decimal(n1) + t1 == [c2] + Decimal(n2) + t2
    requires (t1 == [] || !IsDigit(t1[0])) && (t2 == [] || !IsDigit(t2[0]))
    ensures c1 == c2 && n1 == n2 && t1 == t2
  {
    var d1, d2 := Decimal(n1), Decimal(n2);
    hide Decimal;
    var w := [c1] + d1 + t1;
    assert w == [c1] + (d1 + t1) == [c2] + (d2 + t2);
    assert w[1..] == d1 + t1 == d2 + t2;
    DigitRunOf(d1, t1);
    DigitRunOf(d2, t2);
    assert d1 == w[1..][..|d1|] == d2;
    assert t1 == w[1..][|d1|..] == t2;
    DecimalInjective(n1, n2);
  }

  lemma {:induction false} EdgeTextInjective(k1: Word, e1: map<CodeUnit, nat>, k2: Word, e2: map<CodeUnit, nat>)
    requires forall c | c in k1 :: c in e1
    requires forall c | c in k2 :: c in e2
    requires NoDigitBehind(k1) && NoDigitBehind(k2)
    requires EdgeText(k1, e1) == EdgeText(k2, e2)
    ensures k1 == k2 && forall c | c in k1 :: e1[c] == e2[c]
    decreases |k1|
  {
    if k1 != [] && k2 != [] {
      hide Decimal;
      TextStart(k1[1..], e1);
      TextStart(k2[1..], e2);
      TextParts(k1[0], e1[k1[0]], EdgeText(k1[1..], e1), k2[0], e2[k2[0]], EdgeText(k2[1..], e2));
      EdgeTextInjective(k1[1..], e1, k2[1..], e2);
      assert k1 == [k1[0]] + k1[1..] && k2 == [k2[0]] + k2[1..];
    }
  }

  predicate NodeOver(n: Node, a: Alphabet) { n.edges.Keys <= a }

  /** No digit has a smaller character beside it: where a number ends can be seen. */
  ghost predicate Unambiguous(a: Alphabet) {
    forall d, c | d in a && c in a && IsDigit(d) :: d <= c
  }

  lemma SignatureParts(n: Node)
    ensures Signature(n)[0] == if n.final then 49 else 48
    ensures Signature(n)[1..] == EdgeText(SortedKeys(n.edges.Keys), n.edges)
  {
  }

  lemma SortedKeysInjective(s: set<CodeUnit>, t: set<CodeUnit>)
    requires SortedKeys(s) == SortedKeys(t)
    ensures s == t
  {
    forall c ensures c in s <==> c in t {
      assert c in SortedKeys(s) <==> c in SortedKeys(t);
    }
  }

  /** In character order, at most the first edge carries a digit. */
  lemma KeysOver(s: set<CodeUnit>, a: Alphabet)
    requires s <= a && Unambiguous(a)
    ensures NoDigitBehind(SortedKeys(s))
  {
    var k := SortedKeys(s);
    forall i | 0 < i < |k| ensures !IsDigit(k[i]) {
      assert k[0] in k && k[i] in k && k[0] < k[i];
    }
  }

  lemma EdgesInjective(a: Alphabet, e: map<CodeUnit, nat>, f: map<CodeUnit, nat>)
    requires Unambiguous(a) && e.Keys <= a && f.Keys <= a
    requires EdgeText(SortedKeys(e.Keys), e) == EdgeText(SortedKeys(f.Keys), f)
    ensures e == f
  {
    var k, l := SortedKeys(e.Keys), SortedKeys(f.Keys);
    KeysOver(e.Keys, a);
    KeysOver(f.Keys, a);
    EdgeTextInjective(k, e, l, f);
    SortedKeysInjective(e.Keys, f.Keys);
    forall c | c in e ensures e[c] == f[c] { assert c in k; }
  }

  /** Over such an alphabet, equal signatures mean equal nodes: same flag, same edges. */
  lemma SignatureInjective(a: Alphabet, m: Node, n: Node)
    requires Unambiguous(a) && NodeOver(m, a) && NodeOver(n, a)
    requires Signature(m) == Signature(n)
    ensures m == n
  {
    hide Unambiguous;
    SignatureParts(m);
    SignatureParts(n);
    assert m.final == n.final;
    EdgesInjective(a, m.edges, n.edges);
  }

  // --------------------------------------------------------------- ambiguity

  lemma OneKey(x: CodeUnit)
    ensures SortedKeys({x}) == [x]
  {
    assert {x} - {x} == {};
    assert SortedKeys({x}) == [x] + SortedKeys({x} - {x});
  }

  lemma TwoKeys(x: CodeUnit, y: CodeUnit)
    requires x < y
    ensures SortedKeys({x, y}) == [x, y]
  {
    OneKey(y);
    assert {x, y} - {x} == {y};
    assert SortedKeys({x, y}) == [x] + SortedKeys({x, y} - {x});
  }

  lemma OneEdge(final: bool, x: CodeUnit, p: nat)
    ensures Signature(Node(final, map[x := p])) == [if final then 49 else 48] + ([x] + Decimal(p))
  {
    var e: map<CodeUnit, nat> := map[x := p];
    OneKey(x);
    assert e.Keys == {x} && [x][1..] == [];
    assert EdgeText([x], e) == [x] + Decimal(p) + EdgeText([], e);
    assert EdgeText([x], e) == [x] + Decimal(p);
  }

  lemma TwoEdges(final: bool, x: CodeUnit, p: nat, y: CodeUnit, q: nat)
    requires x < y
    ensures Signature(Node(final, map[x := p, y := q])) ==
            [if final then 49 else 48] + ([x] + Decimal(p) + ([y] + Decimal(q)))
  {
    var e: map<CodeUnit, nat> := map[x := p, y := q];
    TwoKeys(x, y);
    assert e.Keys == {x, y};
    assert [x, y][1..] == [y] && [y][1..] == [];
    assert EdgeText([y], e) == [y] + Decimal(q) + EdgeText([], e);
    assert EdgeText([y], e) == [y] + Decimal(q);
    assert EdgeText([x, y], e) == [x] + Decimal(p) + EdgeText([y], e);
  }

  /** The number whose decimals are those of m, the digit d and those of n < 10. */
  function Around(m: nat, d: CodeUnit, n: nat): nat
    requires IsDigit(d)
  {
    100 * m + 10 * (d as int - 48) + n
  }

  lemma DecimalAround(m: nat, d: CodeUnit, n: nat)
    requires m > 0 && IsDigit(d) && n < 10
    ensures Decimal(Around(m, d, n)) == Decimal(m) + [d] + Decimal(n)
  {
    var v := d as int - 48;
    var x := Around(m, d, n);
    assert x / 10 == 10 * m + v && x % 10 == n;
    assert (10 * m + v) / 10 == m && (10 * m + v) % 10 == v;
    assert Decimal(x) == Decimal(10 * m + v) + Decimal(n);
    assert Decimal(10 * m + v) == Decimal(m) + [48 + v as CodeUnit];
  }

  /** Different nodes over a share no text. */
  ghost predicate TextsTell(a: Alphabet) {
    forall m, n | NodeOver(m, a) && NodeOver(n, a) && Signature(m) == Signature(n) :: m == n
  }

  /** The text of a node tells it from the others over an alphabet exactly if no digit of the alphabet
      has a smaller character in it. */
  lemma TextsTellExactly(a: Alphabet)
    ensures TextsTell(a) <==> Unambiguous(a)
  {
    hide Signature, Unambiguous;
    if Unambiguous(a) {
      forall m, n | NodeOver(m, a) && NodeOver(n, a) && Signature(m) == Signature(n) ensures m == n {
        SignatureInjective(a, m, n);
      }
    } else {
      var d, c := AmbiguousPair(a);
      var x: map<CodeUnit, nat>, y: map<CodeUnit, nat> := map[c := 1, d := 2], map[c := Around(1, d, 2)];
      SameText(c, d);
      assert d in x && d !in y;
      assert NodeOver(Node(false, x), a) && NodeOver(Node(false, y), a);
    }
  }

  lemma AmbiguousPair(a: Alphabet) returns (d: CodeUnit, c: CodeUnit)
    requires !Unambiguous(a)
    ensures d in a && c in a && IsDigit(d) && c < d
  {
    d, c :| d in a && c in a && IsDigit(d) && c < d;
  }

  lemma SameText(c: CodeUnit, d: CodeUnit)
    requires IsDigit(d) && c < d
    ensures Signature(Node(false, map[c := 1, d := 2])) == Signature(Node(false, map[c := Around(1, d, 2)]))
  {
    hide Signature, Decimal, Around;
    TwoEdges(false, c, 1, d, 2);
    OneEdge(false, c, Around(1, d, 2));
    DecimalAround(1, d, 2);
  }
}
