/** TokenSet.Builder (docs/assets/js/application.js:2245-2269): words arrive in order, the nodes
    of the last word form an open path, and closing a node replaces it by an equal one already
    in the register, if there is one.

    Steps on values come first, then what each step keeps, then the class that takes them. */
module TokenSetBuilders {
  import opened Options
  import opened TokenSets

  /** An entry of uncheckedNodes. */
  datatype Pending = Pending(parent: nat, ch: CodeUnit, child: nat)

  // ------------------------------------------------------------------ steps

  function Redirect(g: Graph, q: nat, c: CodeUnit, m: nat): Graph
    requires q in g
  {
    g[q := Node(g[q].final, g[q].edges[c := m])]
  }

  /** A fresh node n behind q. */
  function Grow(g: Graph, q: nat, c: CodeUnit, n: nat): Graph
    requires q in g
  {
    Redirect(g, q, c, n)[n := Node(false, map[])]
  }

  function MarkFinal(g: Graph, q: nat): Graph
    requires q in g
  {
    g[q := Node(true, g[q].edges)]
  }

  // ------------------------------------------------------------------ shape

  /** The open path spells the beginning of p; numbers grow along it. */
  ghost predicate Path(g: Graph, path: seq<nat>, p: Word) {
    && 0 < |path| <= |p| + 1
    && (forall i | 0 <= i < |path| :: path[i] in g)
    && (forall i | 0 <= i < |path| - 1 :: p[i] in g[path[i]].edges && g[path[i]].edges[p[i]] == path[i + 1])
    && (forall i, j | 0 <= i < j < |path| :: path[i] < path[j])
  }

  /** An open node is entered by its path edge only, the root by none. */
  ghost predicate Private(g: Graph, path: seq<nat>, p: Word)
    requires Path(g, path, p)
  {
    forall q, c, i | q in g && c in g[q].edges && 0 <= i < |path| && g[q].edges[c] == path[i] ::
      i > 0 && q == path[i - 1] && c == p[i - 1]
  }

  /** Closed nodes are not open and lead to closed nodes. */
  ghost predicate Frozen(g: Graph, path: seq<nat>, f: set<nat>) {
    forall m | m in f ::
      m in g && m !in path && forall c | c in g[m].edges :: g[m].edges[c] in f
  }

  /** Besides the path, open nodes lead to closed ones. */
  ghost predicate OpenEdges(g: Graph, path: seq<nat>, p: Word, f: set<nat>)
    requires Path(g, path, p)
  {
    forall i, c | 0 <= i < |path| && c in g[path[i]].edges ::
      (i < |path| - 1 && c == p[i]) || g[path[i]].edges[c] in f
  }

  /** No open node has an edge beyond the last word's character. */
  ghost predicate InOrder(g: Graph, path: seq<nat>, p: Word)
    requires Path(g, path, p)
  {
    forall i, c | 0 <= i < |path| && c in g[path[i]].edges :: i < |p| && c <= p[i]
  }

  ghost predicate Shape(g: Graph, path: seq<nat>, p: Word, f: set<nat>) {
    && Closed(g) && Path(g, path, p) && Private(g, path, p)
    && Frozen(g, path, f) && OpenEdges(g, path, p, f) && InOrder(g, path, p)
  }

  lemma MergePath(g: Graph, path: seq<nat>, p: Word, f: set<nat>, m: nat)
    requires Path(g, path, p) && Closed(g) && Frozen(g, path, f) && |path| > 1 && m in f
    ensures var k := |path| - 1; var g' := Redirect(g, path[k - 1], p[k - 1], m);
            Closed(g') && Path(g', path[..k], p) && Frozen(g', path[..k], f)
  {
    var k := |path| - 1;
    var g', path' := Redirect(g, path[k - 1], p[k - 1], m), path[..k];
    forall i | 0 <= i < k - 1 ensures path'[i] == path[i] && g'[path[i]] == g[path[i]] { }
    assert Path(g', path', p);
    forall x | x in f ensures x in g' && g'[x] == g[x] && x !in path' { assert x != path[k - 1]; }
  }

  lemma MergeRest(g: Graph, path: seq<nat>, p: Word, f: set<nat>, m: nat)
    requires Shape(g, path, p, f) && |path| > 1 && m in f
    requires var k := |path| - 1; Path(Redirect(g, path[k - 1], p[k - 1], m), path[..k], p)
    ensures var k := |path| - 1; var g' := Redirect(g, path[k - 1], p[k - 1], m);
            Private(g', path[..k], p) && OpenEdges(g', path[..k], p, f) && InOrder(g', path[..k], p)
  {
    var k := |path| - 1;
    var g', path' := Redirect(g, path[k - 1], p[k - 1], m), path[..k];
    forall q, c, i | q in g' && c in g'[q].edges && 0 <= i < k && g'[q].edges[c] == path'[i]
      ensures i > 0 && q == path'[i - 1] && c == p[i - 1]
    {
      assert path'[i] == path[i] && path[i] != m;
      assert q in g && c in g[q].edges && g[q].edges[c] == path[i];
    }
    forall i, c | 0 <= i < k && c in g'[path'[i]].edges
      ensures (i < k - 1 && c == p[i]) || g'[path'[i]].edges[c] in f
      ensures i < |p| && c <= p[i]
    {
      assert path'[i] == path[i] && c in g[path[i]].edges;
      if i < k - 1 { assert g'[path[i]] == g[path[i]]; }
    }
  }

  lemma MergeShape(g: Graph, path: seq<nat>, p: Word, f: set<nat>, m: nat)
    requires Shape(g, path, p, f) && |path| > 1 && m in f
    ensures var k := |path| - 1; Shape(Redirect(g, path[k - 1], p[k - 1], m), path[..k], p, f)
  {
    hide Path, Private, Frozen, OpenEdges, InOrder, Closed;
    PathFacts(g, path, p);
    MergePath(g, path, p, f, m);
    MergeRest(g, path, p, f, m);
  }

  lemma PathFacts(g: Graph, path: seq<nat>, p: Word)
    requires Path(g, path, p)
    ensures 0 < |path| <= |p| + 1 && forall i | 0 <= i < |path| :: path[i] in g
    ensures forall i | 0 <= i < |path| - 1 :: p[i] in g[path[i]].edges && g[path[i]].edges[p[i]] == path[i + 1]
  {
  }

  lemma KeepShape(g: Graph, path: seq<nat>, p: Word, f: set<nat>)
    requires Shape(g, path, p, f) && |path| > 1
    ensures var k := |path| - 1; Shape(g, path[..k], p, f + {path[k]})
  {
    var k := |path| - 1;
    var path', f' := path[..k], f + {path[k]};
    KeepFrozen(g, path, p, f);
    assert Path(g, path', p);
    forall q, c, i | q in g && c in g[q].edges && 0 <= i < k && g[q].edges[c] == path'[i]
      ensures i > 0 && q == path'[i - 1] && c == p[i - 1]
    {
      assert path'[i] == path[i];
    }
    forall i, c | 0 <= i < k && c in g[path'[i]].edges
      ensures (i < k - 1 && c == p[i]) || g[path'[i]].edges[c] in f'
      ensures i < |p| && c <= p[i]
    {
      assert path'[i] == path[i];
    }
  }

  lemma KeepFrozen(g: Graph, path: seq<nat>, p: Word, f: set<nat>)
    requires Path(g, path, p) && Frozen(g, path, f) && OpenEdges(g, path, p, f) && |path| > 1
    ensures var k := |path| - 1; Frozen(g, path[..k], f + {path[k]})
  {
    var k := |path| - 1;
    forall m | m in f + {path[k]}
      ensures m in g && m !in path[..k] && forall c | c in g[m].edges :: g[m].edges[c] in f + {path[k]}
    {
      if m == path[k] {
        forall c | c in g[m].edges ensures g[m].edges[c] in f { assert c in g[path[k]].edges; }
      }
    }
  }

  ghost predicate Growable(g: Graph, path: seq<nat>, p: Word, n: nat) {
    && Path(g, path, p) && |path| <= |p|
    && (forall q | q in g :: q < n)
    && p[|path| - 1] !in g[path[|path| - 1]].edges
  }

  lemma GrowPath(g: Graph, path: seq<nat>, p: Word, n: nat)
    requires Growable(g, path, p, n)
    ensures Path(Grow(g, path[|path| - 1], p[|path| - 1], n), path + [n], p)
  {
    var k := |path| - 1;
    var g', path' := Grow(g, path[k], p[k], n), path + [n];
    forall i | 0 <= i < |path'| - 1
      ensures p[i] in g'[path'[i]].edges && g'[path'[i]].edges[p[i]] == path'[i + 1]
    {
      if i < k { assert path[i] != path[k]; }
    }
  }

  lemma GrowPrivate(g: Graph, path: seq<nat>, p: Word, n: nat)
    requires Growable(g, path, p, n) && Closed(g) && Private(g, path, p)
    ensures Closed(Grow(g, path[|path| - 1], p[|path| - 1], n))
    ensures Path(Grow(g, path[|path| - 1], p[|path| - 1], n), path + [n], p)
    ensures Private(Grow(g, path[|path| - 1], p[|path| - 1], n), path + [n], p)
  {
    GrowPath(g, path, p, n);
    var k := |path| - 1;
    var g', path' := Grow(g, path[k], p[k], n), path + [n];
    forall q, c, i | q in g' && c in g'[q].edges && 0 <= i < |path'| && g'[q].edges[c] == path'[i]
      ensures i > 0 && q == path'[i - 1] && c == p[i - 1]
    {
      if q == path[k] && c == p[k] {
        assert i == k + 1;
      } else {
        assert q in g && c in g[q].edges && g'[q].edges[c] == g[q].edges[c];
        assert i <= k;
      }
    }
  }

  lemma GrowFrozen(g: Graph, path: seq<nat>, p: Word, f: set<nat>, n: nat)
    requires Growable(g, path, p, n) && Frozen(g, path, f)
    ensures Frozen(Grow(g, path[|path| - 1], p[|path| - 1], n), path + [n], f)
  {
    var g' := Grow(g, path[|path| - 1], p[|path| - 1], n);
    forall m | m in f ensures m in g' && g'[m] == g[m] && m !in path + [n] {
      assert m != path[|path| - 1];
    }
  }

  lemma GrowEdges(g: Graph, path: seq<nat>, p: Word, f: set<nat>, n: nat)
    requires Growable(g, path, p, n) && OpenEdges(g, path, p, f) && InOrder(g, path, p)
    requires Path(Grow(g, path[|path| - 1], p[|path| - 1], n), path + [n], p)
    ensures OpenEdges(Grow(g, path[|path| - 1], p[|path| - 1], n), path + [n], p, f)
    ensures InOrder(Grow(g, path[|path| - 1], p[|path| - 1], n), path + [n], p)
  {
    var k := |path| - 1;
    var g', path' := Grow(g, path[k], p[k], n), path + [n];
    forall i, c | 0 <= i < |path'| && c in g'[path'[i]].edges
      ensures (i < |path'| - 1 && c == p[i]) || g'[path'[i]].edges[c] in f
      ensures i < |p| && c <= p[i]
    {
      if i < k {
        assert g'[path[i]] == g[path[i]];
      } else if i == k {
        assert g'[path[k]].edges == g[path[k]].edges[p[k] := n];
      }
    }
  }

  lemma GrowShape(g: Graph, path: seq<nat>, p: Word, f: set<nat>, n: nat)
    requires Shape(g, path, p, f) && Growable(g, path, p, n)
    ensures Shape(Grow(g, path[|path| - 1], p[|path| - 1], n), path + [n], p, f)
  {
    GrowPrivate(g, path, p, n);
    GrowFrozen(g, path, p, f, n);
    GrowEdges(g, path, p, f, n);
  }

  lemma MarkFinalShape(g: Graph, path: seq<nat>, p: Word, f: set<nat>)
    requires Shape(g, path, p, f)
    ensures Shape(MarkFinal(g, path[|path| - 1]), path, p, f)
  {
    var g' := MarkFinal(g, path[|path| - 1]);
    assert forall q | q in g :: q in g' && g'[q].edges == g[q].edges;
  }

  // ------------------------------------------------------------- word order

  /** JavaScript's < on strings. */
  predicate Less(a: Word, b: Word) {
    b != [] && (a == [] || a[0] < b[0] || (a[0] == b[0] && Less(a[1..], b[1..])))
  }

  /** n is where the common prefix of a and b ends. */
  ghost predicate PartAt(a: Word, b: Word, n: nat) {
    n <= |a| && n <= |b| && a[..n] == b[..n] && (n < |a| && n < |b| ==> a[n] != b[n])
  }

  lemma {:induction false} LessAt(a: Word, b: Word, n: nat)
    requires PartAt(a, b, n)
    ensures Less(a, b) <==> n < |b| && (n == |a| || a[n] < b[n])
    decreases n
  {
    if n > 0 {
      assert a[0] == a[..n][0] == b[0];
      assert a[1..][..n - 1] == a[..n][1..] == b[..n][1..] == b[1..][..n - 1];
      LessAt(a[1..], b[1..], n - 1);
    }
  }

  lemma NextWordStart(g: Graph, path: seq<nat>, p: Word, e: Word)
    requires Path(g, path, p) && InOrder(g, path, p)
    requires PartAt(e, p, |path| - 1) && !Less(e, p)
    ensures |path| - 1 < |p| ==> |path| - 1 < |e| && e[|path| - 1] > p[|path| - 1]
    ensures forall i | 0 <= i < |path| - 1 :: e[i] == p[i]
    ensures Path(g, path, e) && InOrder(g, path, e)
    ensures |path| <= |e| ==> e[|path| - 1] !in g[path[|path| - 1]].edges
  {
    var n := |path| - 1;
    LessAt(e, p, n);
    forall i | 0 <= i < n ensures e[i] == p[i] { assert e[i] == e[..n][i] == p[..n][i]; }
  }

  /** Closed down to the common prefix, the path is also one for the next word, whose next
      character is still free there. */
  lemma NextWordShape(g: Graph, path: seq<nat>, p: Word, f: set<nat>, e: Word)
    requires Shape(g, path, p, f) && PartAt(e, p, |path| - 1) && !Less(e, p)
    ensures Shape(g, path, e, f)
    ensures |path| <= |e| ==> e[|path| - 1] !in g[path[|path| - 1]].edges
  {
    hide Less;
    NextWordStart(g, path, p, e);
  }

  // ---------------------------------------------------------------- meaning

  ghost predicate Language(g: Graph, root: nat, words: set<Word>) {
    forall w :: Accepts(g, root, w) <==> w in words
  }

  /** No walk from a closed node is longer than depth. */
  ghost predicate LowRegister(g: Graph, f: set<nat>, depth: nat) {
    forall m | m in f :: Shallow(g, m, depth)
  }

  /** Every closed node accepts something. */
  ghost predicate Useful(g: Graph, f: set<nat>) {
    forall m | m in f :: exists w :: Accepts(g, m, w)
  }

  /** Every open node but the root accepts the rest of the word. */
  ghost predicate UsefulPath(g: Graph, path: seq<nat>, p: Word)
    requires |path| <= |p| + 1
  {
    forall i | 0 < i < |path| :: Accepts(g, path[i], p[i..])
  }

  ghost predicate Meaning(g: Graph, path: seq<nat>, f: set<nat>, words: set<Word>)
    requires path != []
  {
    Language(g, path[0], words) && Useful(g, f)
  }

  /** m is a copy of the node q's edge c leads to. */
  ghost predicate SameChild(g: Graph, q: nat, c: CodeUnit, m: nat) {
    && q in g && m in g && m != q && c in g[q].edges && g[q].edges[c] in g
    && g[g[q].edges[c]] == g[m]
  }

  /** Replacing a child by a copy changes the language of no node. */
  lemma {:induction false} RedirectSame(g: Graph, q: nat, c: CodeUnit, m: nat, x: nat, w: Word)
    requires SameChild(g, q, c, m)
    ensures Accepts(Redirect(g, q, c, m), x, w) <==> Accepts(g, x, w)
    decreases |w|
  {
    if x in g && w != [] && w[0] in g[x].edges {
      var g' := Redirect(g, q, c, m);
      var rest := w[1..];
      RedirectSame(g, q, c, m, g'[x].edges[w[0]], rest);
      if x == q && w[0] == c {
        assert Accepts(g, m, rest) <==> Accepts(g, g[q].edges[c], rest);
      }
    }
  }

  ghost predicate Agree(g: Graph, g': Graph, f: set<nat>) {
    forall m | m in f :: m in g && m in g' && g[m] == g'[m] && forall c | c in g[m].edges :: g[m].edges[c] in f
  }

  lemma {:induction false} AgreeAccepts(g: Graph, g': Graph, f: set<nat>, m: nat, w: Word)
    requires Agree(g, g', f) && m in f
    ensures Accepts(g', m, w) <==> Accepts(g, m, w)
    decreases |w|
  {
    if w != [] && w[0] in g[m].edges {
      AgreeAccepts(g, g', f, g[m].edges[w[0]], w[1..]);
    }
  }

  lemma {:induction false} AgreeLow(g: Graph, g': Graph, f: set<nat>, m: nat, h: nat)
    requires Agree(g, g', f) && m in f && Shallow(g, m, h)
    ensures Shallow(g', m, h)
    decreases h
  {
    forall c | c in g'[m].edges
      ensures h > 0 && Shallow(g', g'[m].edges[c], h - 1)
    {
      AgreeLow(g, g', f, g[m].edges[c], h - 1);
    }
  }

  lemma LowAgrees(g: Graph, g': Graph, f: set<nat>, depth: nat)
    requires Agree(g, g', f) && LowRegister(g, f, depth)
    ensures LowRegister(g', f, depth)
  {
    forall m | m in f ensures Shallow(g', m, depth) { AgreeLow(g, g', f, m, depth); }
  }

  lemma LowKeep(g: Graph, f: set<nat>, depth: nat, x: nat)
    requires LowRegister(g, f, depth) && x in g && forall c | c in g[x].edges :: g[x].edges[c] in f
    ensures Shallow(g, x, depth + 1) && LowRegister(g, f + {x}, depth + 1)
  {
    forall m | m in f ensures Shallow(g, m, depth + 1) { ShallowMonotone(g, m, depth, depth + 1); }
  }

  /** A fresh node accepts nothing yet, so no language changes. */
  lemma {:induction false} GrowSame(g: Graph, t: nat, c: CodeUnit, n: nat, x: nat, w: Word)
    requires Closed(g) && t in g && c !in g[t].edges && n !in g && x in g
    ensures Accepts(Grow(g, t, c, n), x, w) <==> Accepts(g, x, w)
    decreases |w|
  {
    var g' := Grow(g, t, c, n);
    if w != [] && w[0] in g'[x].edges {
      if x == t && w[0] == c {
        assert g'[x].edges[c] == n;
        assert !Accepts(g', n, w[1..]);
      } else {
        assert g'[x].edges[w[0]] == g[x].edges[w[0]];
        GrowSame(g, t, c, n, g[x].edges[w[0]], w[1..]);
      }
    }
  }

  lemma GrowAgree(g: Graph, path: seq<nat>, p: Word, f: set<nat>, n: nat)
    requires Growable(g, path, p, n) && Frozen(g, path, f)
    ensures Agree(g, Grow(g, path[|path| - 1], p[|path| - 1], n), f)
  {
    forall m | m in f ensures m in g && m != n && m != path[|path| - 1] { }
  }

  lemma {:induction false} MarkFinalAccepts(g: Graph, t: nat, x: nat, w: Word)
    requires t in g
    ensures Accepts(MarkFinal(g, t), x, w) <==> Accepts(g, x, w) || Walk(g, x, w) == Some(t)
    decreases |w|
  {
    if x in g && w != [] && w[0] in g[x].edges {
      MarkFinalAccepts(g, t, g[x].edges[w[0]], w[1..]);
    }
  }

  lemma WalkLast(g: Graph, x: nat, u: Word, c: CodeUnit)
    requires Closed(g)
    ensures Walk(g, x, u + [c]) ==
            match Walk(g, x, u)
            case None => None
            case Some(q) => if q in g && c in g[q].edges then Some(g[q].edges[c]) else None
  {
    WalkAppend(g, x, u, [c]);
    AcceptsIsWalk(g, x, u);
    assert [c][1..] == [];
  }

  lemma {:induction false} WalkAlongPath(g: Graph, path: seq<nat>, p: Word, i: nat)
    requires Closed(g) && Path(g, path, p) && i < |path|
    ensures Walk(g, path[0], p[..i]) == Some(path[i])
  {
    if i > 0 {
      WalkAlongPath(g, path, p, i - 1);
      assert p[..i] == p[..i - 1] + [p[i - 1]];
      WalkLast(g, path[0], p[..i - 1], p[i - 1]);
    }
  }

  lemma OnlyPathEdge(g: Graph, path: seq<nat>, p: Word, q: nat, c: CodeUnit, i: nat)
    requires Path(g, path, p) && Private(g, path, p) && i < |path|
    requires q in g && c in g[q].edges && g[q].edges[c] == path[i]
    ensures i > 0 && q == path[i - 1] && c == p[i - 1]
  {
  }

  /** Only the path's own spelling leads from the root to an open node. */
  lemma {:induction false} WalkToOpen(g: Graph, path: seq<nat>, p: Word, w: Word, i: nat)
    requires Closed(g) && Path(g, path, p) && Private(g, path, p) && i < |path|
    requires Walk(g, path[0], w) == Some(path[i])
    ensures w == p[..i]
    decreases |w|
  {
    if w == [] {
      assert Walk(g, path[0], w) == Some(path[0]);
      assert i == 0;
    } else {
      hide Accepts, Walk, Private, Closed;
      var u, c := w[..|w| - 1], w[|w| - 1];
      assert w == u + [c];
      WalkLast(g, path[0], u, c);
      AcceptsIsWalk(g, path[0], u);
      OnlyPathEdge(g, path, p, Walk(g, path[0], u).value, c, i);
      WalkToOpen(g, path, p, u, i - 1);
      assert p[..i] == p[..i - 1] + [p[i - 1]];
    }
  }

  lemma RedirectKeeps(g: Graph, q: nat, c: CodeUnit, m: nat, path: seq<nat>, f: set<nat>, words: set<Word>)
    requires SameChild(g, q, c, m) && path != [] && Meaning(g, path, f, words)
    ensures Meaning(Redirect(g, q, c, m), path, f, words)
  {
    var g' := Redirect(g, q, c, m);
    forall x, w ensures Accepts(g', x, w) <==> Accepts(g, x, w) { RedirectSame(g, q, c, m, x, w); }
    forall x | x in f ensures exists w :: Accepts(g', x, w) {
      var w :| Accepts(g, x, w);
      assert Accepts(g', x, w);
    }
  }

  lemma RedirectKeepsUse(g: Graph, q: nat, c: CodeUnit, m: nat, path: seq<nat>, p: Word)
    requires SameChild(g, q, c, m) && |path| <= |p| + 1 && UsefulPath(g, path, p)
    ensures UsefulPath(Redirect(g, q, c, m), path, p)
  {
    forall x, w ensures Accepts(Redirect(g, q, c, m), x, w) <==> Accepts(g, x, w) { RedirectSame(g, q, c, m, x, w); }
  }

  /** Merging the last open node with a registered copy keeps everything. */
  lemma MergeMeaning(g: Graph, path: seq<nat>, p: Word, f: set<nat>, m: nat, words: set<Word>)
    requires Shape(g, path, p, f) && |path| > 1 && m in f && g[m] == g[path[|path| - 1]]
    requires Meaning(g, path, f, words) && UsefulPath(g, path, p)
    ensures var k := |path| - 1; var g' := Redirect(g, path[k - 1], p[k - 1], m);
            Meaning(g', path[..k], f, words) && UsefulPath(g', path[..k], p)
  {
    var k := |path| - 1;
    var q, c := path[k - 1], p[k - 1];
    assert SameChild(g, q, c, m);
    RedirectKeeps(g, q, c, m, path, f, words);
    RedirectKeepsUse(g, q, c, m, path, p);
  }

  /** Registering the last open node keeps everything. */
  lemma KeepMeaning(g: Graph, path: seq<nat>, p: Word, f: set<nat>, words: set<Word>)
    requires 1 < |path| <= |p| + 1
    requires Meaning(g, path, f, words) && UsefulPath(g, path, p)
    ensures var k := |path| - 1;
            Meaning(g, path[..k], f + {path[k]}, words) && UsefulPath(g, path[..k], p)
  {
    hide Accepts;
    var k := |path| - 1;
    assert Accepts(g, path[k], p[k..]);
    assert UsefulPath(g, path[..k], p);
  }

  lemma GrowMeaning(g: Graph, path: seq<nat>, p: Word, f: set<nat>, n: nat, words: set<Word>)
    requires Shape(g, path, p, f) && Growable(g, path, p, n)
    requires Meaning(g, path, f, words)
    ensures Meaning(Grow(g, path[|path| - 1], p[|path| - 1], n), path + [n], f, words)
  {
    var k := |path| - 1;
    var g', path' := Grow(g, path[k], p[k], n), path + [n];
    GrowAgree(g, path, p, f, n);
    forall x, w | x in g ensures Accepts(g', x, w) <==> Accepts(g, x, w) { GrowSame(g, path[k], p[k], n, x, w); }
    forall m | m in f ensures exists w :: Accepts(g', m, w) {
      var w :| Accepts(g, m, w);
      assert Accepts(g', m, w);
    }
  }

  lemma {:induction false} PathAccepts(g: Graph, path: seq<nat>, p: Word, i: nat)
    requires Path(g, path, p) && |path| == |p| + 1 && i < |path| && g[path[|p|]].final
    ensures Accepts(g, path[i], p[i..])
    decreases |p| - i
  {
    if i < |p| {
      PathAccepts(g, path, p, i + 1);
      assert p[i..][0] == p[i] && p[i..][1..] == p[i + 1..];
    }
  }

  /** Marking the last node of a fully spelled path adds just that word. */
  lemma MarkFinalMeaning(g: Graph, path: seq<nat>, p: Word, f: set<nat>, words: set<Word>)
    requires Shape(g, path, p, f) && |path| == |p| + 1
    requires Meaning(g, path, f, words)
    ensures Meaning(MarkFinal(g, path[|p|]), path, f, words + {p})
    ensures UsefulPath(MarkFinal(g, path[|p|]), path, p)
  {
    var t := path[|p|];
    var g' := MarkFinal(g, t);
    forall w ensures Accepts(g', path[0], w) <==> w in words + {p} {
      MarkFinalAccepts(g, t, path[0], w);
      assert p[..|p|] == p;
      WalkAlongPath(g, path, p, |p|);
      if Walk(g, path[0], w) == Some(t) { WalkToOpen(g, path, p, w, |p|); }
    }
    forall m | m in f ensures exists w :: Accepts(g', m, w) {
      var w :| Accepts(g, m, w);
      MarkFinalAccepts(g, t, m, w);
      assert Accepts(g', m, w);
    }
    MarkFinalShape(g, path, p, f);
    forall i | 0 < i < |path| ensures Accepts(g', path[i], p[i..]) { PathAccepts(g', path, p, i); }
  }

  // --------------------------------------------------------------- register

  ghost predicate Over(g: Graph, a: Alphabet) {
    forall q | q in g :: NodeOver(g[q], a)
  }

  lemma RedirectOver(g: Graph, q: nat, c: CodeUnit, m: nat, a: Alphabet)
    requires Over(g, a) && q in g && (c in g[q].edges || c in a)
    ensures Over(Redirect(g, q, c, m), a)
  {
    assert NodeOver(g[q], a);
  }

  lemma GrowOver(g: Graph, q: nat, c: CodeUnit, n: nat, a: Alphabet)
    requires Over(g, a) && q in g && c in a
    ensures Over(Grow(g, q, c, n), a)
  {
    RedirectOver(g, q, c, n, a);
  }

  lemma OverMore(g: Graph, a: Alphabet, b: Alphabet)
    requires Over(g, a) && a <= b
    ensures Over(g, b)
  {
    forall q | q in g ensures NodeOver(g[q], b) { assert NodeOver(g[q], a); }
  }

  /** The register files closed nodes under their signatures; so does the cached text. */
  ghost predicate Register(g: Graph, minimized: map<Word, nat>, text: map<nat, Word>) {
    && (forall t | t in minimized :: minimized[t] in g && Signature(g[minimized[t]]) == t)
    && (forall m | m in text :: m in g && m in minimized.Values && Signature(g[m]) == text[m])
  }

  lemma RegisterAgrees(g: Graph, g': Graph, minimized: map<Word, nat>, text: map<nat, Word>)
    requires Register(g, minimized, text)
    requires forall m | m in minimized.Values :: m in g' && m in g && g'[m] == g[m]
    ensures Register(g', minimized, text)
  {
    forall t | t in minimized ensures minimized[t] in g' && Signature(g'[minimized[t]]) == t {
      assert minimized[t] in minimized.Values;
    }
  }

  lemma ValuesGrow(minimized: map<Word, nat>, t: Word, m: nat)
    requires t !in minimized
    ensures minimized[t := m].Values == minimized.Values + {m}
  {
    var minimized' := minimized[t := m];
    forall x | x in minimized.Values + {m} ensures x in minimized'.Values {
      if x == m {
        assert minimized'[t] == m;
      } else {
        var s :| s in minimized && minimized[s] == x;
        assert minimized'[s] == x;
      }
    }
  }

  lemma RegisterGrows(g: Graph, minimized: map<Word, nat>, text: map<nat, Word>, m: nat)
    requires Register(g, minimized, text) && m in g
    requires Signature(g[m]) !in minimized
    ensures minimized[Signature(g[m]) := m].Values == minimized.Values + {m}
    ensures Register(g, minimized[Signature(g[m]) := m], text[m := Signature(g[m])])
  {
    hide Signature;
    ValuesGrow(minimized, Signature(g[m]), m);
  }

  // ------------------------------------------------------------ the builder

  /** The builder as a value: the nodes made so far and the next number, the open path and the word it
      spells, the register and the cached texts.  words, letters and depth record what the program does
      not: the words added, their characters, and how long walks in the register can be. */
  datatype Build = Build(
    nodes: Graph, nextId: nat, path: seq<nat>, word: Word, minimized: map<Word, nat>, text: map<nat, Word>,
    words: set<Word>, letters: Alphabet, depth: nat)

  predicate Formed(b: Build) {
    0 < |b.path| <= |b.word| + 1 && forall i | 0 <= i < |b.path| :: b.path[i] in b.nodes
  }

  function Started(firstId: nat): Build {
    Build(map[firstId := Node(false, map[])], firstId + 1, [firstId], [], map[], map[], {}, {}, 0)
  }

  /** The last open node is replaced by its registered copy, or registered itself. */
  function ClosedLast(b: Build): (r: Build)
    requires Formed(b) && |b.path| > 1
    ensures Formed(r) && r.path == b.path[..|b.path| - 1]
  {
    var k := |b.path| - 1;
    var t := Signature(b.nodes[b.path[k]]);
    if t in b.minimized
    then b.(nodes := Redirect(b.nodes, b.path[k - 1], b.word[k - 1], b.minimized[t]), path := b.path[..k])
    else b.(minimized := b.minimized[t := b.path[k]], text := b.text[b.path[k] := t], path := b.path[..k],
            depth := b.depth + 1)
  }

  /** minimize */
  function ClosedTo(b: Build, n: nat): (r: Build)
    requires Formed(b) && n < |b.path|
    ensures Formed(r) && r.path == b.path[..n + 1]
    ensures r.word == b.word && r.words == b.words && r.letters == b.letters && r.nextId == b.nextId
    decreases |b.path|
  {
    if |b.path| == n + 1 then b else ClosedTo(ClosedLast(b), n)
  }

  /** A fresh node behind the last open one. */
  function Extended(b: Build): (r: Build)
    requires Formed(b) && |b.path| <= |b.word|
    ensures Formed(r) && r.path == b.path + [b.nextId]
  {
    var k := |b.path| - 1;
    b.(nodes := Grow(b.nodes, b.path[k], b.word[k], b.nextId), path := b.path + [b.nextId], nextId := b.nextId + 1)
  }

  function Spelled(b: Build): (r: Build)
    requires Formed(b)
    ensures Formed(r) && |r.path| == |r.word| + 1 && b.path <= r.path
    ensures r.word == b.word && r.words == b.words && r.letters == b.letters
    decreases |b.word| - |b.path|
  {
    if |b.path| == |b.word| + 1 then b else Spelled(Extended(b))
  }

  /** How long a common prefix two words have. */
  function Common(a: Word, b: Word): (n: nat)
    ensures n <= |a| && n <= |b|
  {
    if a != [] && b != [] && a[0] == b[0] then 1 + Common(a[1..], b[1..]) else 0
  }

  function Chars(e: Word): Alphabet { set c | c in e }

  /** The word starts over at the end of the path. */
  function Turned(b: Build, e: Word): Build { b.(word := e, letters := b.letters + Chars(e)) }

  function Marked(b: Build): Build
    requires Formed(b)
  {
    b.(nodes := MarkFinal(b.nodes, b.path[|b.path| - 1]), words := b.words + {b.word})
  }

  /** insert, for a word in order */
  function Added(b: Build, e: Word): (r: Build)
    requires Formed(b) && |b.path| == |b.word| + 1
    ensures Formed(r) && |r.path| == |r.word| + 1 && r.path[0] == b.path[0]
    ensures r.word == e && r.words == b.words + {e} && r.letters == b.letters + Chars(e)
  {
    Marked(Spelled(Turned(ClosedTo(b, Common(e, b.word)), e)))
  }

  function AddedAll(ws: seq<Word>, firstId: nat): (b: Build)
    ensures Formed(b) && |b.path| == |b.word| + 1 && b.path[0] == firstId
    ensures b.word == if ws == [] then [] else ws[|ws| - 1]
    ensures b.letters == Letters(ws)
    ensures forall w :: w in b.words <==> w in ws
  {
    if ws == [] then Started(firstId)
    else
      assert ws == ws[..|ws| - 1] + [ws[|ws| - 1]];
      Added(AddedAll(ws[..|ws| - 1], firstId), ws[|ws| - 1])
  }

  /** fromArray, for words in order: the root is firstId. */
  function Built(ws: seq<Word>, firstId: nat): Build { ClosedTo(AddedAll(ws, firstId), 0) }

  /** The characters of some words. */
  function Letters(ws: seq<Word>): Alphabet {
    if ws == [] then {} else Letters(ws[..|ws| - 1]) + Chars(ws[|ws| - 1])
  }

  // -------------------------------------------------------- the whole state

  ghost predicate Numbered(g: Graph, n: nat) { forall q | q in g :: q < n }

  ghost predicate Sound(b: Build) {
    && b.path != []
    && Shape(b.nodes, b.path, b.word, b.minimized.Values)
    && Register(b.nodes, b.minimized, b.text)
    && Numbered(b.nodes, b.nextId)
    && LowRegister(b.nodes, b.minimized.Values, b.depth)
    && Over(b.nodes, b.letters) && Chars(b.word) <= b.letters
    && (Unambiguous(b.letters) ==> Meaning(b.nodes, b.path, b.minimized.Values, b.words))
  }

  /** Between insertions, and while closing, every open node is on the way to a word. */
  ghost predicate Settled(b: Build) {
    && Formed(b) && Sound(b)
    && (Unambiguous(b.letters) ==> UsefulPath(b.nodes, b.path, b.word))
  }

  lemma SoundFormed(b: Build)
    requires Sound(b)
    ensures Formed(b)
  {
  }

  lemma SoundMeans(b: Build)
    requires Sound(b)
    ensures Formed(b)
    ensures Shape(b.nodes, b.path, b.word, b.minimized.Values) && Register(b.nodes, b.minimized, b.text)
    ensures LowRegister(b.nodes, b.minimized.Values, b.depth) && Over(b.nodes, b.letters) && Chars(b.word) <= b.letters
    ensures Numbered(b.nodes, b.nextId)
    ensures Unambiguous(b.letters) ==> Meaning(b.nodes, b.path, b.minimized.Values, b.words)
  {
  }

  lemma SoundFrom(b: Build)
    requires b.path != [] && Shape(b.nodes, b.path, b.word, b.minimized.Values)
    requires Register(b.nodes, b.minimized, b.text)
    requires LowRegister(b.nodes, b.minimized.Values, b.depth) && Over(b.nodes, b.letters) && Chars(b.word) <= b.letters
    requires Numbered(b.nodes, b.nextId)
    requires Unambiguous(b.letters) ==> Meaning(b.nodes, b.path, b.minimized.Values, b.words)
    ensures Sound(b)
  {
  }

  lemma ShapeFacts(g: Graph, path: seq<nat>, p: Word, f: set<nat>)
    requires Shape(g, path, p, f)
    ensures Frozen(g, path, f) && Path(g, path, p)
  {
  }

  lemma Registered(g: Graph, minimized: map<Word, nat>, text: map<nat, Word>, t: Word)
    requires Register(g, minimized, text) && t in minimized
    ensures minimized[t] in minimized.Values && minimized[t] in g && Signature(g[minimized[t]]) == t
  {
  }

  lemma MergeAgrees(g: Graph, path: seq<nat>, p: Word, f: set<nat>, m: nat)
    requires Shape(g, path, p, f) && |path| > 1
    ensures Agree(g, Redirect(g, path[|path| - 2], p[|path| - 2], m), f)
  {
    hide Private, OpenEdges, InOrder;
    forall x | x in f ensures x != path[|path| - 2] { assert path[|path| - 2] in path; }
  }

  lemma MergeKeeps(b: Build)
    requires Settled(b) && |b.path| > 1
    requires Signature(b.nodes[b.path[|b.path| - 1]]) in b.minimized
    ensures Settled(ClosedLast(b))
  {
    hide Shape, Path, Register, Signature, Meaning, UsefulPath, Over, Unambiguous, LowRegister, Chars, Sound, Redirect,
      Agree;
    var k := |b.path| - 1;
    var m := b.minimized[Signature(b.nodes[b.path[k]])];
    var g, f, r := b.nodes, b.minimized.Values, ClosedLast(b);
    assert r == b.(nodes := Redirect(g, b.path[k - 1], b.word[k - 1], m), path := b.path[..k]);
    hide ClosedLast;
    SoundMeans(b);
    Registered(g, b.minimized, b.text, Signature(g[b.path[k]]));
    PathEdge(g, b.path, b.word, f);
    MergeShape(g, b.path, b.word, f, m);
    MergeAgrees(g, b.path, b.word, f, m);
    AgreeRest(b, r.nodes);
    RedirectOver(g, b.path[k - 1], b.word[k - 1], m, b.letters);
    RedirectNumbered(g, b.path[k - 1], b.word[k - 1], m, b.nextId);
    if Unambiguous(b.letters) {
      OverNode(g, b.letters, m);
      OverNode(g, b.letters, b.path[k]);
      SignatureInjective(b.letters, g[m], g[b.path[k]]);
      MergeMeaning(g, b.path, b.word, f, m, b.words);
    }
    SoundFrom(r);
  }

  lemma PathEdge(g: Graph, path: seq<nat>, p: Word, f: set<nat>)
    requires Shape(g, path, p, f) && |path| > 1
    ensures |path| <= |p| + 1 && path[|path| - 2] in g && p[|path| - 2] in g[path[|path| - 2]].edges
  {
  }

  lemma RedirectNumbered(g: Graph, q: nat, c: CodeUnit, m: nat, n: nat)
    requires Numbered(g, n) && q in g
    ensures Numbered(Redirect(g, q, c, m), n)
  {
  }

  lemma OverNode(g: Graph, a: Alphabet, q: nat)
    requires Over(g, a) && q in g
    ensures NodeOver(g[q], a)
  {
  }

  /** What agrees on the register keeps what is known of it. */
  lemma AgreeRest(b: Build, g': Graph)
    requires Register(b.nodes, b.minimized, b.text) && LowRegister(b.nodes, b.minimized.Values, b.depth)
    requires Agree(b.nodes, g', b.minimized.Values)
    ensures Register(g', b.minimized, b.text) && LowRegister(g', b.minimized.Values, b.depth)
  {
    hide Signature, LowRegister;
    RegisterAgrees(b.nodes, g', b.minimized, b.text);
    LowAgrees(b.nodes, g', b.minimized.Values, b.depth);
  }

  lemma KeepKeeps(b: Build)
    requires Settled(b) && |b.path| > 1
    requires Signature(b.nodes[b.path[|b.path| - 1]]) !in b.minimized
    ensures Settled(ClosedLast(b))
  {
    hide Shape, Path, Register, Signature, Meaning, UsefulPath, Over, Unambiguous, LowRegister, Chars, Sound, Numbered;
    var k := |b.path| - 1;
    var t := Signature(b.nodes[b.path[k]]);
    var f, r := b.minimized.Values, ClosedLast(b);
    assert r == b.(minimized := b.minimized[t := b.path[k]], text := b.text[b.path[k] := t], path := b.path[..k],
                   depth := b.depth + 1);
    hide ClosedLast;
    SoundMeans(b);
    KeepShape(b.nodes, b.path, b.word, f);
    RegisterGrows(b.nodes, b.minimized, b.text, b.path[k]);
    var x := LastEdges(b.nodes, b.path, b.word, f);
    LowKeep(b.nodes, f, b.depth, x);
    if Unambiguous(b.letters) {
      KeepMeaning(b.nodes, b.path, b.word, f, b.words);
    }
    SoundFrom(r);
  }

  lemma LastEdges(g: Graph, path: seq<nat>, p: Word, f: set<nat>) returns (x: nat)
    requires Shape(g, path, p, f)
    ensures x == path[|path| - 1] && x in g && forall c | c in g[x].edges :: g[x].edges[c] in f
  {
    x := path[|path| - 1];
  }

  lemma ClosedLastKeeps(b: Build)
    requires Settled(b) && |b.path| > 1
    ensures Settled(ClosedLast(b))
  {
    hide Settled, ClosedLast, Signature;
    SettledFormed(b);
    if Signature(b.nodes[b.path[|b.path| - 1]]) in b.minimized { MergeKeeps(b); } else { KeepKeeps(b); }
  }

  lemma SettledFormed(b: Build)
    requires Settled(b)
    ensures Formed(b) && Sound(b)
  {
  }

  lemma {:induction false} ClosedToKeeps(b: Build, n: nat)
    requires Settled(b) && n < |b.path|
    ensures Formed(b) && Settled(ClosedTo(b, n))
    decreases |b.path|
  {
    hide Settled;
    SettledFormed(b);
    if |b.path| > n + 1 {
      ClosedLastKeeps(b);
      ClosedToKeeps(ClosedLast(b), n);
    }
  }

  lemma {:induction false} CommonIsPart(a: Word, b: Word)
    ensures PartAt(a, b, Common(a, b))
  {
    if a != [] && b != [] && a[0] == b[0] {
      var n := Common(a[1..], b[1..]);
      CommonIsPart(a[1..], b[1..]);
      assert a[..n + 1] == [a[0]] + a[1..][..n] && b[..n + 1] == [b[0]] + b[1..][..n];
    }
  }

  lemma FewerLetters(b: Build, more: Alphabet)
    ensures Unambiguous(b.letters + more) ==> Unambiguous(b.letters)
  {
  }

  lemma TurnedKeeps(b: Build, e: Word)
    requires Sound(b) && PartAt(e, b.word, |b.path| - 1) && !Less(e, b.word)
    ensures Sound(Turned(b, e))
    ensures |b.path| <= |e| ==> Growable(b.nodes, b.path, e, b.nextId)
  {
    hide Sound, Shape, Path, Register, LowRegister, Over, Meaning, Less, PartAt, Unambiguous;
    SoundMeans(b);
    NextWordShape(b.nodes, b.path, b.word, b.minimized.Values, e);
    ShapeFacts(b.nodes, b.path, e, b.minimized.Values);
    OverMore(b.nodes, b.letters, b.letters + Chars(e));
    FewerLetters(b, Chars(e));
    SoundFrom(Turned(b, e));
  }

  lemma InChars(w: Word, i: nat, a: Alphabet)
    requires i < |w| && Chars(w) <= a
    ensures w[i] in a
  {
    assert w[i] in Chars(w);
  }

  lemma GrowableNext(g: Graph, path: seq<nat>, p: Word, n: nat)
    requires Growable(g, path, p, n)
    ensures Numbered(Grow(g, path[|path| - 1], p[|path| - 1], n), n + 1)
    ensures |path| < |p| ==> Growable(Grow(g, path[|path| - 1], p[|path| - 1], n), path + [n], p, n + 1)
  {
    GrowPath(g, path, p, n);
  }

  lemma ExtendedIs(b: Build)
    requires Sound(b) && Growable(b.nodes, b.path, b.word, b.nextId)
    ensures Formed(b) && 0 < |b.path| <= |b.word|
    ensures var k := |b.path| - 1;
            && b.path[k] in b.nodes && b.word[k] in b.letters
            && Extended(b) == b.(nodes := Grow(b.nodes, b.path[k], b.word[k], b.nextId), path := b.path + [b.nextId],
                                 nextId := b.nextId + 1)
  {
    SoundMeans(b);
    GrowableSize(b.nodes, b.path, b.word, b.nextId);
    hide Sound, Growable, Grow, Chars;
    InChars(b.word, |b.path| - 1, b.letters);
  }

  lemma ExtendedKeeps(b: Build)
    requires Sound(b) && Growable(b.nodes, b.path, b.word, b.nextId)
    ensures Formed(b) && |b.path| <= |b.word| && Sound(Extended(b))
  {
    hide Shape, Path, Register, Meaning, Growable, Over, Unambiguous, LowRegister, Chars, Sound, Grow, Agree, Numbered,
      Frozen, Extended, Formed;
    ExtendedIs(b);
    SoundMeans(b);
    var k := |b.path| - 1;
    var g, f, r := b.nodes, b.minimized.Values, Extended(b);
    ShapeFacts(g, b.path, b.word, f);
    GrowShape(g, b.path, b.word, f, b.nextId);
    GrowAgree(g, b.path, b.word, f, b.nextId);
    AgreeRest(b, r.nodes);
    GrowOver(g, b.path[k], b.word[k], b.nextId, b.letters);
    GrowableNext(g, b.path, b.word, b.nextId);
    if Unambiguous(b.letters) {
      GrowMeaning(g, b.path, b.word, f, b.nextId, b.words);
    }
    SoundFrom(r);
  }

  lemma ExtendedGrows(b: Build)
    requires Sound(b) && Growable(b.nodes, b.path, b.word, b.nextId)
    ensures Formed(b) && |b.path| <= |b.word|
    ensures var r := Extended(b); |r.path| <= |r.word| ==> Growable(r.nodes, r.path, r.word, r.nextId)
  {
    hide Growable, Sound, Grow, Extended;
    ExtendedIs(b);
    GrowableNext(b.nodes, b.path, b.word, b.nextId);
  }

  lemma GrowableSize(g: Graph, path: seq<nat>, p: Word, n: nat)
    requires Growable(g, path, p, n)
    ensures |path| <= |p|
  {
  }

  lemma {:induction false} SpelledKeeps(b: Build)
    requires Sound(b) && (|b.path| <= |b.word| ==> Growable(b.nodes, b.path, b.word, b.nextId))
    ensures Formed(b) && Sound(Spelled(b))
    decreases |b.word| - |b.path|
  {
    hide Sound, Growable;
    SoundFormed(b);
    if |b.path| <= |b.word| {
      ExtendedKeeps(b);
      ExtendedGrows(b);
      SpelledKeeps(Extended(b));
    }
  }

  lemma MarkAgrees(g: Graph, path: seq<nat>, p: Word, f: set<nat>)
    requires Shape(g, path, p, f)
    ensures Agree(g, MarkFinal(g, path[|path| - 1]), f)
  {
    hide Private, OpenEdges, InOrder;
    forall x | x in f ensures x != path[|path| - 1] { assert path[|path| - 1] in path; }
  }

  lemma MarkOver(g: Graph, q: nat, a: Alphabet)
    requires Over(g, a) && q in g
    ensures Over(MarkFinal(g, q), a)
  {
    assert NodeOver(g[q], a);
  }

  lemma MarkedKeeps(b: Build)
    requires Formed(b) && Sound(b) && |b.path| == |b.word| + 1
    ensures Settled(Marked(b))
  {
    hide Shape, Register, Signature, Meaning, UsefulPath, Over, Unambiguous, LowRegister, Chars, Sound, Agree;
    var g, f, r := b.nodes, b.minimized.Values, Marked(b);
    assert r == b.(nodes := MarkFinal(g, b.path[|b.word|]), words := b.words + {b.word});
    SoundMeans(b);
    MarkFinalShape(g, b.path, b.word, f);
    MarkAgrees(g, b.path, b.word, f);
    AgreeRest(b, r.nodes);
    MarkOver(g, b.path[|b.word|], b.letters);
    if Unambiguous(b.letters) {
      MarkFinalMeaning(g, b.path, b.word, f, b.words);
    }
    SoundFrom(r);
  }

  lemma AddedKeeps(b: Build, e: Word)
    requires Settled(b) && |b.path| == |b.word| + 1 && !Less(e, b.word)
    ensures Formed(b) && Settled(Added(b, e))
  {
    hide Sound, Settled, Growable, Less, PartAt, ClosedTo, Turned, Spelled, Marked;
    SettledFormed(b);
    var n := Common(e, b.word);
    CommonIsPart(e, b.word);
    ClosedToKeeps(b, n);
    var c := ClosedTo(b, n);
    SettledFormed(c);
    TurnedKeeps(c, e);
    TurnedFacts(c, e);
    SpelledKeeps(Turned(c, e));
    MarkedKeeps(Spelled(Turned(c, e)));
  }

  lemma TurnedFacts(b: Build, e: Word)
    ensures var r := Turned(b, e);
            r.word == e && r.path == b.path && r.nodes == b.nodes && r.nextId == b.nextId
  {
  }

  lemma StartedSettled(firstId: nat)
    ensures Settled(Started(firstId))
  {
  }

  lemma AddedNext(ws: seq<Word>, firstId: nat, n: nat)
    requires n < |ws|
    ensures AddedAll(ws[..n + 1], firstId) == Added(AddedAll(ws[..n], firstId), ws[n])
    ensures AddedAll(ws[..n], firstId).word == if n == 0 then [] else ws[n - 1]
  {
    hide Added;
    assert ws[..n + 1][..n] == ws[..n];
  }

  lemma SortedNext(ws: seq<Word>, n: nat)
    requires n < |ws| && Sorted(ws[..n])
    ensures Sorted(ws[..n + 1]) <==> !Less(ws[n], if n == 0 then [] else ws[n - 1])
    ensures !Sorted(ws[..n + 1]) ==> !Sorted(ws)
  {
    hide Less;
    NothingBelowEmpty(ws[n]);
    forall i | 0 < i < n ensures !Less(ws[i], ws[i - 1]) {
      assert ws[i] == ws[..n][i] && ws[i - 1] == ws[..n][i - 1];
    }
    if n > 0 { assert ws[..n + 1][n] == ws[n] && ws[..n + 1][n - 1] == ws[n - 1]; }
  }

  lemma {:induction false} AddedAllSettled(ws: seq<Word>, firstId: nat)
    requires Sorted(ws)
    ensures Settled(AddedAll(ws, firstId))
  {
    if ws == [] {
      StartedSettled(firstId);
    } else {
      hide Settled, Less, Added, AddedAll;
      var n := |ws| - 1;
      assert Sorted(ws[..n]);
      hide Sorted;
      assert ws[..n + 1] == ws;
      SortedNext(ws, n);
      AddedNext(ws, firstId, n);
      AddedAllSettled(ws[..n], firstId);
      AddedKeeps(AddedAll(ws[..n], firstId), ws[n]);
    }
  }

  ghost predicate Sorted(words: seq<Word>) {
    forall i | 0 < i < |words| :: !Less(words[i], words[i - 1])
  }

  lemma NothingBelowEmpty(e: Word)
    ensures !Less(e, [])
  {
  }

  lemma EdgeTextStep(keys: Word, edges: map<CodeUnit, nat>, r: nat)
    requires r < |keys| && forall c | c in keys :: c in edges
    ensures EdgeText(keys[r..], edges) == [keys[r]] + Decimal(edges[keys[r]]) + EdgeText(keys[r + 1..], edges)
  {
    assert keys[r..][1..] == keys[r + 1..];
  }

  lemma EdgeTextEnd(keys: Word, edges: map<CodeUnit, nat>)
    requires forall c | c in keys :: c in edges
    ensures EdgeText(keys[|keys|..], edges) == []
  {
  }

  // ------------------------------------------------------------- minimality

  /** Nodes below the root that accept the same words are one node. */
  ghost predicate Minimal(g: Graph, root: nat) {
    forall u, v | u != [] && v != [] && Walk(g, root, u).Some? && Walk(g, root, v).Some? ::
      SameWords(g, Walk(g, root, u).value, Walk(g, root, v).value) ==> Walk(g, root, u) == Walk(g, root, v)
  }

  ghost predicate SameWords(g: Graph, x: nat, y: nat) {
    forall w :: Accepts(g, x, w) <==> Accepts(g, y, w)
  }

  lemma AcceptsCons(g: Graph, x: nat, c: CodeUnit, w: Word)
    ensures Accepts(g, x, [c] + w) <==> x in g && c in g[x].edges && Accepts(g, g[x].edges[c], w)
  {
    assert ([c] + w)[1..] == w;
  }

  ghost predicate Filed(g: Graph, minimized: map<Word, nat>) {
    && (forall t | t in minimized :: minimized[t] in g && Signature(g[minimized[t]]) == t)
    && (forall m, c | m in minimized.Values && m in g && c in g[m].edges :: g[m].edges[c] in minimized.Values)
  }

  lemma SameEdges(g: Graph, f: set<nat>, x: nat, y: nat, c: CodeUnit)
    requires Useful(g, f) && x in g && y in g && SameWords(g, x, y)
    requires c in g[x].edges && g[x].edges[c] in f
    ensures c in g[y].edges && SameWords(g, g[x].edges[c], g[y].edges[c])
  {
    hide Accepts;
    var w :| Accepts(g, g[x].edges[c], w);
    AcceptsCons(g, x, c, w);
    AcceptsCons(g, y, c, w);
    forall v ensures Accepts(g, g[x].edges[c], v) <==> Accepts(g, g[y].edges[c], v) {
      AcceptsCons(g, x, c, v);
      AcceptsCons(g, y, c, v);
    }
  }

  /** Registered nodes with one language are one node. */
  lemma {:induction false} RegisteredDistinct(g: Graph, minimized: map<Word, nat>, x: nat, y: nat, h: nat)
    requires Filed(g, minimized) && Useful(g, minimized.Values)
    requires x in minimized.Values && y in minimized.Values && x in g && y in g
    requires Shallow(g, x, h) && SameWords(g, x, y)
    ensures x == y
    decreases h
  {
    hide Useful, Signature;
    forall c ensures c in g[x].edges <==> c in g[y].edges {
      if c in g[x].edges { SameEdges(g, minimized.Values, x, y, c); }
      if c in g[y].edges { SameEdges(g, minimized.Values, y, x, c); }
    }
    forall c | c in g[x].edges ensures g[x].edges[c] == g[y].edges[c] {
      SameEdges(g, minimized.Values, x, y, c);
      assert Shallow(g, g[x].edges[c], h - 1) && g[x].edges[c] in g;
      RegisteredInGraph(g, minimized, g[y].edges[c]);
      RegisteredDistinct(g, minimized, g[x].edges[c], g[y].edges[c], h - 1);
    }
    assert Accepts(g, x, []) <==> Accepts(g, y, []);
    assert g[x].edges == g[y].edges;
    assert g[x] == g[y];
    SameSignature(g, minimized, x, y);
  }

  lemma RegisteredInGraph(g: Graph, minimized: map<Word, nat>, x: nat)
    requires Filed(g, minimized) && x in minimized.Values
    ensures x in g
  {
  }

  lemma SameSignature(g: Graph, minimized: map<Word, nat>, x: nat, y: nat)
    requires Filed(g, minimized) && x in minimized.Values && y in minimized.Values
    requires x in g && y in g && g[x] == g[y]
    ensures x == y
  {
    hide Signature;
    var s :| s in minimized && minimized[s] == x;
    var t :| t in minimized && minimized[t] == y;
    assert s == Signature(g[x]) == Signature(g[y]) == t;
  }

  lemma {:induction false} WalkIntoRegister(g: Graph, f: set<nat>, x: nat, u: Word)
    requires x in g && u != [] && Walk(g, x, u).Some?
    requires forall c | c in g[x].edges :: g[x].edges[c] in f
    requires forall m | m in f :: m in g && forall c | c in g[m].edges :: g[m].edges[c] in f
    ensures Walk(g, x, u).value in f
    decreases |u|
  {
    var y := g[x].edges[u[0]];
    if |u| > 1 {
      WalkIntoRegister(g, f, y, u[1..]);
    } else {
      assert u[1..] == [];
    }
  }

  /** With the whole path closed, the automaton has no cycle. */
  lemma FinishedIsShallow(b: Build)
    requires Sound(b) && |b.path| == 1
    ensures Closed(b.nodes) && Shallow(b.nodes, b.path[0], b.depth + 1)
    ensures forall c | c in b.nodes[b.path[0]].edges :: b.nodes[b.path[0]].edges[c] in b.minimized.Values
  {
    hide Signature, Meaning, Shallow, Over, Unambiguous;
    var root := b.path[0];
    assert b.path == [root];
    forall c | c in b.nodes[root].edges ensures b.nodes[root].edges[c] in b.minimized.Values {
      assert c in b.nodes[b.path[0]].edges;
    }
    LowKeep(b.nodes, b.minimized.Values, b.depth, root);
  }

  /** With the whole path closed, the automaton is minimal and knows just the words. */
  lemma FinishedIsMinimal(b: Build)
    requires Sound(b) && |b.path| == 1 && Unambiguous(b.letters)
    ensures Minimal(b.nodes, b.path[0]) && Language(b.nodes, b.path[0], b.words)
  {
    hide Signature, Useful, Accepts, Walk, Shallow, Over, Unambiguous;
    FinishedIsShallow(b);
    var g, f, root := b.nodes, b.minimized.Values, b.path[0];
    assert Filed(g, b.minimized);
    forall u, v | u != [] && v != [] && Walk(g, root, u).Some? && Walk(g, root, v).Some?
                  && SameWords(g, Walk(g, root, u).value, Walk(g, root, v).value)
      ensures Walk(g, root, u) == Walk(g, root, v)
    {
      WalkIntoRegister(g, f, root, u);
      WalkIntoRegister(g, f, root, v);
      RegisteredDistinct(g, b.minimized, Walk(g, root, u).value, Walk(g, root, v).value, b.depth);
    }
  }

  /** The automaton knows just the words. */
  ghost predicate Knows(ws: seq<Word>, firstId: nat) {
    forall w :: Accepts(Built(ws, firstId).nodes, firstId, w) <==> w in ws
  }

  /** What is built from words in order: closed and acyclic always, exact and minimal over alphabets
      whose texts tell nodes apart. */
  lemma BuiltRight(ws: seq<Word>, firstId: nat)
    requires Sorted(ws)
    ensures var b := Built(ws, firstId);
            && Closed(b.nodes) && Shallow(b.nodes, firstId, b.depth + 1)
            && (Unambiguous(Letters(ws)) ==> Knows(ws, firstId) && Minimal(b.nodes, firstId))
  {
    AddedAllSettled(ws, firstId);
    var a, b := AddedAll(ws, firstId), Built(ws, firstId);
    ClosedToKeeps(a, 0);
    assert b == ClosedTo(a, 0);
    hide Sound, Settled, Closed, Shallow, Minimal, Unambiguous, Accepts, Sorted, AddedAll, ClosedTo, Built, Letters;
    assert b.path == a.path[..1] && b.path[0] == firstId;
    SettledFormed(b);
    FinishedIsShallow(b);
    if Unambiguous(b.letters) { FinishedIsMinimal(b); }
  }

  // ------------------------------------------------------------------ class

  function Links(path: seq<nat>, word: Word): (r: seq<Pending>)
    requires 0 < |path| <= |word| + 1
    ensures |r| == |path| - 1
    ensures forall i | 0 <= i < |r| :: r[i] == Pending(path[i], word[i], path[i + 1])
  {
    seq(|path| - 1, i requires 0 <= i < |path| - 1 => Pending(path[i], word[i], path[i + 1]))
  }

  class Builder {
    var previousWord: Word
    const root: nat
    var uncheckedNodes: seq<Pending>
    var minimizedNodes: map<Word, nat>

    /** The TokenSets made so far, the cached _str of those that have one, and the next number. */
    var nodes: Graph
    var text: map<nat, Word>
    var nextId: nat

    ghost var build: Build

    /** uncheckedNodes holds the edges of the open path. */
    ghost predicate Linked()
      reads this
    {
      && Formed(build) && build.path[0] == root
      && nodes == build.nodes && text == build.text && nextId == build.nextId && minimizedNodes == build.minimized
      && uncheckedNodes == Links(build.path, build.word)
    }

    /** Between calls the open path spells the last word. */
    ghost predicate Valid()
      reads this
    {
      && Linked() && Settled(build)
      && build.word == previousWord && |build.path| == |previousWord| + 1
    }

    constructor (firstId: nat)
      ensures Valid() && build == Started(firstId) && root == firstId
    {
      previousWord := [];
      root := firstId;
      uncheckedNodes := [];
      minimizedNodes := map[];
      nodes := map[firstId := Node(false, map[])];
      text := map[];
      nextId := firstId + 1;
      build := Started(firstId);
      new;
      StartedSettled(firstId);
    }

    /** toString, with the cache. */
    method ToString(id: nat) returns (r: Word)
      requires id in nodes && (id in text ==> text[id] == Signature(nodes[id]))
      ensures r == Signature(nodes[id])
    {
      if id in text {
        return text[id];
      }
      r := Print(nodes[id]);
    }

    static method Print(n: Node) returns (e: Word)
      ensures e == Signature(n)
    {
      hide EdgeText;
      e := [if n.final then 49 else 48];
      var keys := SortedKeys(n.edges.Keys);
      ghost var all := Signature(n);
      var r := 0;
      assert keys[0..] == keys;
      while r < |keys|
        invariant 0 <= r <= |keys|
        invariant e + EdgeText(keys[r..], n.edges) == all
      {
        EdgeTextStep(keys, n.edges, r);
        var piece := [keys[r]] + Decimal(n.edges[keys[r]]);
        assert e + (piece + EdgeText(keys[r + 1..], n.edges)) == (e + piece) + EdgeText(keys[r + 1..], n.edges);
        e := e + piece;
        r := r + 1;
      }
      EdgeTextEnd(keys, n.edges);
    }

    /** The body of minimize's loop. */
    method CloseLast()
      requires Linked() && Settled(build) && uncheckedNodes != []
      modifies this`uncheckedNodes, this`minimizedNodes, this`nodes, this`text, this`build
      ensures Linked() && Settled(build) && build == ClosedLast(old(build))
    {
      hide Sound, Settled, Signature;
      SettledFacts(build);
      ClosedLastKeeps(build);
      var n := uncheckedNodes[|uncheckedNodes| - 1];
      var r := ToString(n.child);
      if r in minimizedNodes {
        nodes := Redirect(nodes, n.parent, n.ch, minimizedNodes[r]);
      } else {
        text := text[n.child := r];
        minimizedNodes := minimizedNodes[r := n.child];
      }
      uncheckedNodes := uncheckedNodes[..|uncheckedNodes| - 1];
      build := ClosedLast(build);
    }

    method Minimize(downTo: nat)
      requires Linked() && Settled(build) && downTo <= |uncheckedNodes|
      modifies this`uncheckedNodes, this`minimizedNodes, this`nodes, this`text, this`build
      ensures Linked() && Settled(build) && build == ClosedTo(old(build), downTo)
    {
      hide Settled, ClosedLast;
      while |uncheckedNodes| > downTo
        invariant Linked() && Settled(build) && downTo <= |uncheckedNodes|
        invariant ClosedTo(build, downTo) == ClosedTo(old(build), downTo)
        decreases |uncheckedNodes|
      {
        CloseLast();
      }
    }

    /** One round of insert's second loop: a fresh node behind the last open one. */
    method Extend(e: Word)
      requires Linked() && build.word == e && |uncheckedNodes| < |e|
      modifies this`nodes, this`nextId, this`uncheckedNodes, this`build
      ensures Linked() && build == Extended(old(build))
    {
      var t := if uncheckedNodes == [] then root else uncheckedNodes[|uncheckedNodes| - 1].child;
      assert t == build.path[|build.path| - 1];
      var a := e[|uncheckedNodes|];
      nodes := Grow(nodes, t, a, nextId);
      uncheckedNodes := uncheckedNodes + [Pending(t, a, nextId)];
      nextId := nextId + 1;
      build := Extended(build);
    }

    /** insert's second loop: the open path comes to spell the new word. */
    method ExtendAll(e: Word)
      requires Linked() && build.word == e
      modifies this`nodes, this`nextId, this`uncheckedNodes, this`build
      ensures Linked() && build == Spelled(old(build))
    {
      while |uncheckedNodes| < |e|
        invariant Linked() && build.word == e && |uncheckedNodes| <= |e|
        invariant Spelled(build) == Spelled(old(build))
      {
        Extend(e);
      }
    }

    static method CommonPrefix(e: Word, p: Word) returns (n: nat)
      ensures n == Common(e, p)
    {
      n := 0;
      while n < |e| && n < |p| && e[n] == p[n]
        invariant n <= |e| && n <= |p|
        invariant Common(e, p) == n + Common(e[n..], p[n..])
      {
        assert e[n..][1..] == e[n + 1..] && p[n..][1..] == p[n + 1..];
        n := n + 1;
      }
    }

    /** insert up to its second loop: the open path is closed down to the common prefix and
        opened again along the new word. */
    method MoveTo(e: Word)
      requires Valid()
      modifies this`uncheckedNodes, this`minimizedNodes, this`nodes, this`text, this`nextId, this`build
      ensures Linked()
      ensures build == Spelled(Turned(ClosedTo(old(build), Common(e, previousWord)), e))
    {
      hide Settled, ClosedTo, Spelled;
      var n := CommonPrefix(e, previousWord);
      Minimize(n);
      TurnedLinks(build.path, previousWord, e);
      build := Turned(build, e);
      ExtendAll(e);
    }

    /** Adds a word; false stands for the thrown "Out of order word insertion". */
    method Insert(e: Word) returns (ok: bool)
      requires Valid()
      modifies this
      ensures Valid()
      ensures ok <==> !Less(e, old(previousWord))
      ensures !ok ==> unchanged(this)
      ensures ok ==> build == Added(old(build), e)
    {
      hide Settled, Less, ClosedTo, Spelled, Turned;
      if Less(e, previousWord) {
        return false;
      }
      AddedKeeps(build, e);
      MoveTo(e);
      var t := if uncheckedNodes == [] then root else uncheckedNodes[|uncheckedNodes| - 1].child;
      assert t == build.path[|build.path| - 1];
      nodes := MarkFinal(nodes, t);
      build := Marked(build);
      previousWord := e;
      ok := true;
    }

    /** Closes the whole path. */
    method Finish()
      requires Valid()
      modifies this`uncheckedNodes, this`minimizedNodes, this`nodes, this`text, this`build
      ensures Linked() && Settled(build) && build == ClosedTo(old(build), 0)
    {
      Minimize(0);
    }
  }

  /** TokenSet.fromArray: the graph and the root, or false for the thrown error. */
  method FromArray(words: seq<Word>, firstId: nat) returns (ok: bool, g: Graph, root: nat, ghost depth: nat)
    ensures ok <==> Sorted(words)
    ensures ok ==> g == Built(words, firstId).nodes && root == firstId
    ensures ok ==> Closed(g) && Shallow(g, root, depth)
    ensures ok && Unambiguous(Letters(words)) ==> (forall w :: Accepts(g, root, w) <==> w in words) && Minimal(g, root)
  {
    NoneAdded(words, firstId);
    hide Settled, Less, Minimal, Shallow, Closed, Unambiguous, Accepts, Letters, Added, ClosedTo, AddedAll, Sorted,
      Started;
    var b := new Builder(firstId);
    g, root, depth := b.nodes, b.root, 0;
    ok := true;
    var n := 0;
    while n < |words|
      invariant 0 <= n <= |words|
      invariant fresh(b) && b.root == root == firstId && b.Valid()
      invariant b.build == AddedAll(words[..n], firstId)
      invariant Sorted(words[..n])
    {
      SortedNext(words, n);
      AddedNext(words, firstId, n);
      ok := b.Insert(words[n]);
      if !ok {
        return;
      }
      n := n + 1;
    }
    assert words[..n] == words;
    b.Finish();
    g, depth := b.nodes, b.build.depth + 1;
    BuiltRight(words, firstId);
  }

  lemma NoneAdded(ws: seq<Word>, firstId: nat)
    ensures Sorted(ws[..0]) && AddedAll(ws[..0], firstId) == Started(firstId)
  {
    assert ws[..0] == [];
  }

  lemma SettledFacts(b: Build)
    requires Settled(b)
    ensures Formed(b)
    ensures forall m | m in b.text :: m in b.nodes && Signature(b.nodes[m]) == b.text[m]
  {
  }

  /** Along the common prefix the path spells both words. */
  lemma TurnedLinks(path: seq<nat>, p: Word, e: Word)
    requires |path| == Common(e, p) + 1
    ensures Links(path, p) == Links(path, e)
  {
    CommonIsPart(e, p);
    forall i | 0 <= i < |path| - 1 ensures Links(path, p)[i] == Links(path, e)[i] {
      assert e[i] == e[..|path| - 1][i] == p[..|path| - 1][i];
    }
  }
}
