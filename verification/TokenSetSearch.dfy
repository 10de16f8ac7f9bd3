/** Depth-first work lists over words: the open ones end no word already seen, and no open one
    begins another, so each word is visited once. */
module Frontiers {
  predicate Apart<T(==)>(a: seq<T>, b: seq<T>) { !(a <= b) && !(b <= a) }

  ghost predicate Fresh<T(!new)>(open: seq<seq<T>>, seen: set<seq<T>>) {
    && (forall i, j | 0 <= i < j < |open| :: Apart(open[i], open[j]))
    && (forall i, s | 0 <= i < |open| && s in seen :: !(open[i] <= s))
  }

  /** While p is expanded, the open words are apart from p or its finished children. */
  ghost predicate Expanding<T(!new)>(open: seq<seq<T>>, seen: set<seq<T>>, p: seq<T>, done: set<T>) {
    && Fresh(open, seen)
    && (forall s | s in seen && p <= s :: s == p)
    && (forall i | 0 <= i < |open| :: Apart(open[i], p) || (exists d | d in done :: open[i] == p + [d]))
  }

  lemma Pop<T(!new)>(open: seq<seq<T>>, seen: set<seq<T>>)
    requires open != [] && Fresh(open, seen)
    ensures var n := |open| - 1;
            open[n] !in seen && Expanding(open[..n], seen + {open[n]}, open[n], {})
  {
  }

  lemma ChildBelow<T>(p: seq<T>, d: T, s: seq<T>)
    ensures p + [d] <= s ==> p <= s && |p| < |s|
    ensures s <= p + [d] ==> s <= p || s == p + [d]
  {
    if p + [d] <= s {
      assert p == (p + [d])[..|p|] == s[..|p|];
    }
    if s <= p + [d] && |s| <= |p| {
      assert s == (p + [d])[..|s|] == p[..|s|];
    }
  }

  lemma ChildApart<T>(open: seq<T>, p: seq<T>, done: set<T>, d: T)
    requires d !in done
    requires Apart(open, p) || (exists e | e in done :: open == p + [e])
    ensures Apart(open, p + [d])
  {
    ChildBelow(p, d, open);
    if !Apart(open, p) {
      var e :| e in done && open == p + [e];
      assert open[|p|] != (p + [d])[|p|];
    }
  }

  lemma Push<T(!new)>(open: seq<seq<T>>, seen: set<seq<T>>, p: seq<T>, done: set<T>, d: T)
    requires Expanding(open, seen, p, done) && d !in done
    ensures Expanding(open + [p + [d]], seen, p, done + {d})
  {
    forall i | 0 <= i < |open| ensures Apart(open[i], p + [d]) {
      ChildApart(open[i], p, done, d);
    }
    forall s | s in seen ensures !(p + [d] <= s) { ChildBelow(p, d, s); }
    assert d in done + {d};
  }
}

/** TokenSet.prototype.toArray (docs/assets/js/application.js:2196-2213). */
module TokenSetArrays {
  import opened Frontiers
  import opened Options
  import opened TokenSets

  datatype Frame = Frame(prefix: Word, node: nat)

  /** All walks from q. */
  ghost function Walks(g: Graph, q: nat, h: nat): set<Word>
    requires Shallow(g, q, h)
    decreases h
  {
    {[]} + (set c, w | c in g[q].edges && w in Walks(g, g[q].edges[c], h - 1) :: [c] + w)
  }

  lemma {:induction false} WalksAreAll(g: Graph, q: nat, h: nat, w: Word)
    requires Shallow(g, q, h) && Walk(g, q, w).Some?
    ensures w in Walks(g, q, h)
    decreases h
  {
    if w != [] {
      WalksAreAll(g, g[q].edges[w[0]], h - 1, w[1..]);
      assert w == [w[0]] + w[1..];
    }
  }

  /** Object.keys(edges), in whatever order. */
  method Keys(edges: map<CodeUnit, nat>) returns (keys: seq<CodeUnit>)
    ensures forall c :: c in keys <==> c in edges
    ensures forall i, j | 0 <= i < j < |keys| :: keys[i] != keys[j]
  {
    keys := [];
    var left := edges.Keys;
    while left != {}
      invariant forall c :: c in edges <==> c in keys || c in left
      invariant forall c :: c in keys ==> c !in left
      invariant forall i, j | 0 <= i < j < |keys| :: keys[i] != keys[j]
      decreases left
    {
      var c :| c in left;
      left := left - {c};
      keys := keys + [c];
    }
  }

  function Prefixes(stack: seq<Frame>): (p: seq<Word>)
    ensures |p| == |stack| && forall i | 0 <= i < |p| :: p[i] == stack[i].prefix
  {
    seq(|stack|, i requires 0 <= i < |stack| => stack[i].prefix)
  }

  /** Open frames are walks from the root. */
  ghost predicate Rooted(g: Graph, root: nat, stack: seq<Frame>) {
    forall i | 0 <= i < |stack| :: Walk(g, root, stack[i].prefix) == Some(stack[i].node)
  }

  /** Every walk was seen or goes through an open frame. */
  ghost predicate Covered(g: Graph, root: nat, stack: seq<Frame>, seen: set<Word>) {
    forall w | Walk(g, root, w).Some? :: w in seen || exists i :: 0 <= i < |stack| && stack[i].prefix <= w
  }

  /** The words found so far: the accepted ones among those seen, each once. */
  ghost predicate Found(g: Graph, root: nat, e: seq<Word>, seen: set<Word>) {
    && (forall w :: w in e <==> w in seen && Accepts(g, root, w))
    && (forall i, j | 0 <= i < j < |e| :: e[i] != e[j])
  }

  lemma WalkStep(g: Graph, root: nat, p: Word, x: nat, c: CodeUnit)
    requires Walk(g, root, p) == Some(x)
    ensures Walk(g, root, p + [c])
         == if x in g && c in g[x].edges && g[x].edges[c] in g then Some(g[x].edges[c]) else None
  {
    WalkAppend(g, root, p, [c]);
    assert [c][1..] == [];
  }

  /** Replacing a frame by its children covers what it covered, but for the frame itself. */
  lemma ChildrenCover(g: Graph, root: nat, base: seq<Frame>, f: Frame, kids: seq<Frame>, seen: set<Word>)
    requires Walk(g, root, f.prefix) == Some(f.node)
    requires Covered(g, root, base + [f], seen)
    requires forall c | f.node in g && c in g[f.node].edges ::
               exists i :: 0 <= i < |kids| && kids[i].prefix == f.prefix + [c]
    ensures Covered(g, root, base + kids, seen + {f.prefix})
  {
    var old', new' := base + [f], base + kids;
    forall w | Walk(g, root, w).Some? && w !in seen + {f.prefix}
      ensures exists i :: 0 <= i < |new'| && new'[i].prefix <= w
    {
      var i :| 0 <= i < |old'| && old'[i].prefix <= w;
      if i < |base| {
        assert new'[i].prefix <= w;
      } else {
        assert old'[i] == f && w != f.prefix;
        var c := w[|f.prefix|];
        assert w == f.prefix + w[|f.prefix|..];
        WalkAppend(g, root, f.prefix, w[|f.prefix|..]);
        assert f.node in g && c in g[f.node].edges;
        var j :| 0 <= j < |kids| && kids[j].prefix == f.prefix + [c];
        assert new'[|base| + j].prefix <= w by {
          assert w[..|f.prefix| + 1] == f.prefix + [c];
        }
      }
    }
  }

  method ToArray(g: Graph, root: nat, ghost depth: nat) returns (e: seq<Word>)
    requires Shallow(g, root, depth)
    ensures forall w :: w in e <==> Accepts(g, root, w)
    ensures forall i, j | 0 <= i < j < |e| :: e[i] != e[j]
  {
    hide Shallow, Accepts, Fresh, Expanding, Walks, Covered, Walk;
    e := [];
    var stack := [Frame([], root)];
    ghost var seen: set<Word> := {};
    StartFresh(g, root, depth);
    assert Prefixes(stack) == [[]];
    while stack != []
      invariant Rooted(g, root, stack) && Covered(g, root, stack, seen) && Found(g, root, e, seen)
      invariant Fresh(Prefixes(stack), seen)
      decreases Walks(g, root, depth) - seen
    {
      var n := stack[|stack| - 1];
      ghost var before, seenBefore := stack, seen;
      Pop(Prefixes(stack), seen);
      stack := stack[..|stack| - 1];
      assert Prefixes(stack) == Prefixes(before)[..|stack|];
      WalksAreAll(g, root, depth, n.prefix);
      AcceptsIsWalk(g, root, n.prefix);
      EdgesInGraph(g, root, depth, n.prefix);
      seen := seen + {n.prefix};
      if g[n.node].final {
        e := e + [n.prefix];
      }
      stack := PushChildren(g, root, stack, n, seen);
      ghost var base := before[..|before| - 1];
      assert before == base + [n];
      ChildrenCover(g, root, base, n, stack[|base|..], seenBefore);
      assert stack == base + stack[|base|..];
    }
    CoveredEnd(g, root, seen);
    forall w ensures w in e <==> Accepts(g, root, w) { AcceptsIsWalk(g, root, w); }
  }

  lemma CoveredEnd(g: Graph, root: nat, seen: set<Word>)
    requires Covered(g, root, [], seen)
    ensures forall w | Walk(g, root, w).Some? :: w in seen
  {
  }

  lemma EdgesInGraph(g: Graph, root: nat, depth: nat, w: Word)
    requires Shallow(g, root, depth) && Walk(g, root, w).Some?
    ensures var x := Walk(g, root, w).value; x in g && forall c | c in g[x].edges :: g[x].edges[c] in g
  {
    ShallowWalk(g, root, depth, w);
  }

  lemma StartFresh(g: Graph, root: nat, depth: nat)
    requires Shallow(g, root, depth)
    ensures Fresh<CodeUnit>([[]], {}) && Walk(g, root, []) == Some(root)
    ensures Covered(g, root, [Frame([], root)], {})
  {
    var stack := [Frame([], root)];
    forall w | Walk(g, root, w).Some?
      ensures exists i :: 0 <= i < |stack| && stack[i].prefix <= w
    {
      assert stack[0].prefix <= w;
    }
  }

  lemma ExpandingIsFresh(open: seq<Word>, seen: set<Word>, p: Word, done: set<CodeUnit>)
    requires Expanding(open, seen, p, done)
    ensures Fresh(open, seen)
  {
  }

  lemma PushFrame(g: Graph, root: nat, stack: seq<Frame>, seen: set<Word>, n: Frame, done: set<CodeUnit>, a: CodeUnit)
    requires Rooted(g, root, stack) && Walk(g, root, n.prefix) == Some(n.node)
    requires n.node in g && a in g[n.node].edges && g[n.node].edges[a] in g
    requires Expanding(Prefixes(stack), seen, n.prefix, done) && a !in done
    ensures Rooted(g, root, stack + [Frame(n.prefix + [a], g[n.node].edges[a])])
    ensures Expanding(Prefixes(stack + [Frame(n.prefix + [a], g[n.node].edges[a])]), seen, n.prefix, done + {a})
  {
    hide Walk, Expanding;
    WalkStep(g, root, n.prefix, n.node, a);
    Push(Prefixes(stack), seen, n.prefix, done, a);
    assert Prefixes(stack + [Frame(n.prefix + [a], g[n.node].edges[a])]) == Prefixes(stack) + [n.prefix + [a]];
  }

  /** toArray's inner loop. */
  method PushChildren(g: Graph, root: nat, stack: seq<Frame>, n: Frame, ghost seen: set<Word>)
    returns (stack': seq<Frame>)
    requires Rooted(g, root, stack) && Walk(g, root, n.prefix) == Some(n.node) && n.node in g
    requires forall c | c in g[n.node].edges :: g[n.node].edges[c] in g
    requires Expanding(Prefixes(stack), seen, n.prefix, {})
    ensures Rooted(g, root, stack') && Fresh(Prefixes(stack'), seen)
    ensures |stack| <= |stack'| && stack'[..|stack|] == stack
    ensures forall c | c in g[n.node].edges :: exists i :: |stack| <= i < |stack'| && stack'[i].prefix == n.prefix + [c]
  {
    hide Walk, Fresh, Rooted, Expanding;
    stack' := stack;
    var r := Keys(g[n.node].edges);
    var o := 0;
    ghost var done: set<CodeUnit> := {};
    while o < |r|
      invariant 0 <= o <= |r|
      invariant Rooted(g, root, stack')
      invariant Expanding(Prefixes(stack'), seen, n.prefix, done)
      invariant done == set i | 0 <= i < o :: r[i]
      invariant |stack'| == |stack| + o && stack'[..|stack|] == stack
      invariant forall i | 0 <= i < o :: stack'[|stack| + i].prefix == n.prefix + [r[i]]
    {
      var a := r[o];
      assert a in r && a !in done;
      PushFrame(g, root, stack', seen, n, done, a);
      stack' := stack' + [Frame(n.prefix + [a], g[n.node].edges[a])];
      done := done + {a};
      o := o + 1;
    }
    ExpandingIsFresh(Prefixes(stack'), seen, n.prefix, done);
    forall c | c in g[n.node].edges
      ensures exists i :: |stack| <= i < |stack'| && stack'[i].prefix == n.prefix + [c]
    {
      assert c in r;
      var i :| 0 <= i < |r| && r[i] == c;
      assert stack'[|stack| + i].prefix == n.prefix + [c];
    }
  }
}
