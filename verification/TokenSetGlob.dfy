/** TokenSet.fromString (docs/assets/js/application.js:2185-2195): a search term, in which * stands
    for any characters, becomes a query set. */
module TokenSetGlobs {
  import opened TokenSets
  import opened TokenSetIntersections
  import TokenSetArrays
  import TokenSetBuilders

  /** What a term means. */
  ghost predicate Glob(p: Word, w: Word)
    decreases |p| + |w|
  {
    if p == [] then w == []
    else if p[0] == STAR then Glob(p[1..], w) || (w != [] && Glob(p, w[1..]))
    else w != [] && w[0] == p[0] && Glob(p[1..], w[1..])
  }

  ghost predicate Stars(p: Word, i: nat, j: nat)
    requires j <= |p|
  {
    forall m | i <= m < j :: p[m] == STAR
  }

  /** Stars in front may stand for nothing. */
  lemma {:induction false} SkipStars(p: Word, i: nat, j: nat, w: Word)
    requires i <= j <= |p| && Stars(p, i, j) && Glob(p[j..], w)
    ensures Glob(p[i..], w)
    decreases j - i
  {
    if i < j {
      SkipStars(p, i + 1, j, w);
      assert p[i..][0] == STAR && p[i..][1..] == p[i + 1..];
    }
  }

  /** A leading star takes any prefix. */
  lemma {:induction false} StarAbsorbs(p: Word, s: nat, w: Word, m: nat)
    requires s < |p| && p[s] == STAR && m <= |w| && Glob(p[s..], w[m..])
    ensures Glob(p[s..], w)
    decreases m
  {
    if m == 0 {
      assert w[0..] == w;
    } else {
      assert w[1..][m - 1..] == w[m..];
      StarAbsorbs(p, s, w[1..], m - 1);
    }
  }

  /** Whatever the whole term matches ends in something the rest of the term matches. */
  lemma {:induction false} GlobSuffix(p: Word, s: nat, w: Word) returns (m: nat)
    requires s <= |p| && Glob(p, w)
    ensures m <= |w| && Glob(p[s..], w[m..])
    decreases s, |w|
  {
    if s == 0 {
      m := 0;
      assert p[0..] == p && w[0..] == w;
    } else if p[0] == STAR && Glob(p[1..], w) {
      m := GlobSuffix(p[1..], s - 1, w);
      assert p[1..][s - 1..] == p[s..];
    } else if p[0] == STAR {
      var k := GlobSuffix(p, s, w[1..]);
      m := k + 1;
      assert w[1..][k..] == w[m..];
    } else {
      var k := GlobSuffix(p[1..], s - 1, w[1..]);
      m := k + 1;
      assert p[1..][s - 1..] == p[s..] && w[1..][k..] == w[m..];
    }
  }

  // ------------------------------------------------------------------ chain

  /** at[j] is the node reached after the first j characters of p: the same one after a star, a
      later one after another character. */
  ghost predicate Spine(g: Graph, p: Word, at: seq<nat>) {
    && 0 < |at| <= |p| + 1
    && (forall j | 0 <= j < |at| :: at[j] in g)
    && (forall j | 0 < j < |at| :: if p[j - 1] == STAR then at[j] == at[j - 1] else at[j - 1] < at[j])
  }

  ghost predicate Link(g: Graph, p: Word, at: seq<nat>, j: nat)
    requires 0 < j < |at| <= |p| + 1 && at[j - 1] in g
  {
    p[j - 1] in g[at[j - 1]].edges && g[at[j - 1]].edges[p[j - 1]] == at[j]
  }

  /** The edges the term asks for. */
  ghost predicate Forward(g: Graph, p: Word, at: seq<nat>)
    requires Spine(g, p, at)
  {
    forall j {:trigger at[j]} {:trigger Link(g, p, at, j)} | 0 < j < |at| :: Link(g, p, at, j)
  }

  /** There are no others, but for edges * back to the root from behind a star. */
  ghost predicate Backward(g: Graph, p: Word, at: seq<nat>)
    requires Spine(g, p, at)
  {
    forall i, c | 0 <= i < |at| && c in g[at[i]].edges ::
      Onward(g, p, at, at[i], c) || (c == STAR && g[at[i]].edges[c] == at[0] && BehindStar(p, at, at[i]))
  }

  ghost predicate Onward(g: Graph, p: Word, at: seq<nat>, x: nat, c: CodeUnit)
    requires |at| <= |p| + 1 && x in g && c in g[x].edges
  {
    exists j | 0 < j < |at| :: at[j - 1] == x && p[j - 1] == c && g[x].edges[c] == at[j]
  }

  ghost predicate BehindStar(p: Word, at: seq<nat>, x: nat)
    requires |at| <= |p| + 1
  {
    exists s, j :: 0 <= s < j < |at| && at[j] == x && p[s] == STAR
  }

  ghost predicate Finals(g: Graph, p: Word, at: seq<nat>)
    requires Spine(g, p, at)
  {
    forall i | 0 <= i < |at| :: g[at[i]].final <==> |at| == |p| + 1 && p != [] && at[i] == at[|p|]
  }

  ghost predicate Chain(g: Graph, p: Word, at: seq<nat>) {
    Spine(g, p, at) && Forward(g, p, at) && Backward(g, p, at) && Finals(g, p, at)
  }

  lemma {:induction false} SpineOrder(g: Graph, p: Word, at: seq<nat>, i: nat, j: nat)
    requires Spine(g, p, at) && i <= j < |at|
    ensures at[i] <= at[j]
    ensures at[i] == at[j] ==> Stars(p, i, j)
    decreases j - i
  {
    if i < j {
      SpineOrder(g, p, at, i, j - 1);
    }
  }

  // ------------------------------------------------------------ both ways

  lemma {:induction false} GlobMatches(g: Graph, p: Word, at: seq<nat>, j: nat, w: Word)
    requires Chain(g, p, at) && |at| == |p| + 1 && p != [] && j <= |p|
    requires Glob(p[j..], w)
    ensures Matches(g, at[j], w)
    decreases |p| - j + |w|
  {
    if j < |p| {
      assert p[j..][0] == p[j] && p[j..][1..] == p[j + 1..];
      assert Link(g, p, at, j + 1);
      if p[j] == STAR {
        if Glob(p[j + 1..], w) {
          GlobMatches(g, p, at, j + 1, w);
        } else {
          GlobMatches(g, p, at, j, w[1..]);
          assert Reads(STAR, w[0]);
        }
      } else {
        GlobMatches(g, p, at, j + 1, w[1..]);
        assert Reads(p[j], w[0]);
      }
    }
  }

  /** What a node behind j characters may read: the rest of the term, or all from a star before. */
  ghost predicate Claim(p: Word, j: nat, w: Word)
    requires j <= |p|
  {
    Glob(p[j..], w) || exists s | 0 <= s < j :: p[s] == STAR && Glob(p[s..], w)
  }

  lemma ClaimFrom(p: Word, j: nat, s: nat, w: Word)
    requires s < |p| && j <= |p| && p[s] == STAR && Glob(p[s..], w)
    requires j <= s ==> Stars(p, j, s)
    ensures Claim(p, j, w)
  {
    if j <= s {
      SkipStars(p, j, s, w);
    } else {
      assert p[s] == STAR && Glob(p[s..], w);
    }
  }

  /** Over an edge onward. */
  lemma ClaimOnward(g: Graph, p: Word, at: seq<nat>, j: nat, j': nat, w: Word)
    requires Spine(g, p, at) && j < |at| && 0 < j' < |at| && at[j' - 1] == at[j]
    requires w != [] && Reads(p[j' - 1], w[0]) && Claim(p, j', w[1..])
    ensures Claim(p, j, w)
  {
    var i: nat := j' - 1;
    if j <= i { SpineOrder(g, p, at, j, i); } else { SpineOrder(g, p, at, i, j); }
    assert w[1..] == w[1..][0..];
    if Glob(p[j'..], w[1..]) {
      assert p[i..][0] == p[i] && p[i..][1..] == p[j'..];
      if p[i] == STAR {
        SkipStars(p, i, j', w[1..]);
        StarAbsorbs(p, i, w, 1);
        ClaimFrom(p, j, i, w);
      } else {
        assert j <= i;
        assert Glob(p[i..], w);
        SkipStars(p, j, i, w);
      }
    } else {
      var s :| 0 <= s < j' && p[s] == STAR && Glob(p[s..], w[1..]);
      StarAbsorbs(p, s, w, 1);
      ClaimFrom(p, j, s, w);
    }
  }

  /** Over an edge back to the root. */
  lemma ClaimBack(g: Graph, p: Word, at: seq<nat>, j: nat, w: Word)
    requires Spine(g, p, at) && j < |at| && BehindStar(p, at, at[j])
    requires w != [] && Claim(p, 0, w[1..])
    ensures Claim(p, j, w)
  {
    var s, i :| 0 <= s < i < |at| && at[i] == at[j] && p[s] == STAR;
    assert p[0..] == p;
    var m := GlobSuffix(p, s, w[1..]);
    assert w[1..][m..] == w[m + 1..];
    StarAbsorbs(p, s, w, m + 1);
    if j <= s { SpineOrder(g, p, at, j, i); }
    ClaimFrom(p, j, s, w);
  }

  /** The edge over which a node reads the next character. */
  lemma NextEdge(g: Graph, p: Word, at: seq<nat>, j: nat, w: Word) returns (i: nat)
    requires Spine(g, p, at) && Backward(g, p, at) && j < |at| && w != [] && Matches(g, at[j], w)
    ensures i < |at| && Matches(g, at[i], w[1..])
    ensures (i > 0 && at[i - 1] == at[j] && Reads(p[i - 1], w[0])) || (i == 0 && BehindStar(p, at, at[j]))
  {
    var x := at[j];
    var l :| l in g[x].edges && Reads(l, w[0]) && Matches(g, g[x].edges[l], w[1..]);
    if Onward(g, p, at, x, l) {
      i :| 0 < i < |at| && at[i - 1] == x && p[i - 1] == l && g[x].edges[l] == at[i];
    } else {
      i := 0;
    }
  }

  lemma {:induction false} MatchesGlob(g: Graph, p: Word, at: seq<nat>, j: nat, w: Word)
    requires Chain(g, p, at) && |at| == |p| + 1 && j <= |p| && Matches(g, at[j], w)
    ensures Claim(p, j, w)
    decreases |w|
  {
    if w == [] {
      SpineOrder(g, p, at, j, |p|);
      SkipStars(p, j, |p|, w);
    } else {
      hide Forward, Backward, Finals, Claim, BehindStar, Glob, Matches;
      var i := NextEdge(g, p, at, j, w);
      MatchesGlob(g, p, at, i, w[1..]);
      if i > 0 {
        ClaimOnward(g, p, at, j, i, w);
      } else {
        ClaimBack(g, p, at, j, w);
      }
    }
  }

  // ----------------------------------------------------------------- method

  function AddStar(g: Graph, t: nat, final: bool): Graph
    requires t in g
  {
    g[t := Node(final, g[t].edges[STAR := t])]
  }

  function AddLiteral(g: Graph, t: nat, c: CodeUnit, u: nat, final: bool, back: map<CodeUnit, nat>): Graph
    requires t in g
  {
    g[t := Node(g[t].final, g[t].edges[c := u])][u := Node(final, back)]
  }

  lemma StarLink(g: Graph, p: Word, at: seq<nat>, final: bool, j: nat)
    requires Spine(g, p, at) && |at| <= |p| && p[|at| - 1] == STAR && 0 < j <= |at|
    requires j < |at| ==> Link(g, p, at, j)
    ensures var t := at[|at| - 1];
            (at + [t])[j - 1] in AddStar(g, t, final) && Link(AddStar(g, t, final), p, at + [t], j)
  {
    var i: nat := |at| - 1;
    SpineOrder(g, p, at, j - 1, i);
    if j <= i {
      if at[j - 1] == at[i] { SpineOrder(g, p, at, j, i); }
    }
  }

  lemma StarSpine(g: Graph, p: Word, at: seq<nat>, final: bool)
    requires Spine(g, p, at) && |at| <= |p| && p[|at| - 1] == STAR
    ensures Spine(AddStar(g, at[|at| - 1], final), p, at + [at[|at| - 1]])
  {
  }

  lemma StarForward(g: Graph, p: Word, at: seq<nat>, final: bool)
    requires Spine(g, p, at) && Forward(g, p, at) && |at| <= |p| && p[|at| - 1] == STAR
    ensures var t := at[|at| - 1]; var g', at' := AddStar(g, t, final), at + [t];
            Spine(g', p, at') && Forward(g', p, at')
  {
    StarSpine(g, p, at, final);
    SpineFacts(g, p, at);
    var t := at[|at| - 1];
    var g', at' := AddStar(g, t, final), at + [t];
    hide Spine, Link;
    SpineFacts(g', p, at');
    forall j | 0 < j < |at'| ensures Link(g', p, at', j) {
      if j < |at| { assert Link(g, p, at, j); }
      StarLink(g, p, at, final, j);
    }
  }

  lemma StarBackward(g: Graph, p: Word, at: seq<nat>, final: bool)
    requires Spine(g, p, at) && Backward(g, p, at) && |at| <= |p| && p[|at| - 1] == STAR
    requires var t := at[|at| - 1]; Spine(AddStar(g, t, final), p, at + [t])
    ensures var t := at[|at| - 1]; Backward(AddStar(g, t, final), p, at + [t])
  {
    SpineFacts(g, p, at);
    hide Spine;
    var i := |at| - 1;
    var t := at[i];
    var g', at' := AddStar(g, t, final), at + [t];
    SpineFacts(g', p, at');
    forall m, c | 0 <= m < |at'| && c in g'[at'[m]].edges
      ensures Onward(g', p, at', at'[m], c)
              || (c == STAR && g'[at'[m]].edges[c] == at'[0] && BehindStar(p, at', at'[m]))
    {
      var x := at'[m];
      if x == t && c == STAR {
        assert at'[(i + 1) - 1] == x && p[(i + 1) - 1] == c && g'[x].edges[c] == at'[i + 1];
      } else {
        var k := if m <= i then m else i;
        assert at[k] == x && c in g[x].edges;
        KeepEdge(g, p, at, x, c, g', at');
      }
    }
  }

  lemma SpineFacts(g: Graph, p: Word, at: seq<nat>)
    requires Spine(g, p, at)
    ensures 0 < |at| <= |p| + 1 && forall j | 0 <= j < |at| :: at[j] in g
  {
  }

  lemma StarChain(g: Graph, p: Word, at: seq<nat>)
    requires Chain(g, p, at) && |at| <= |p| && p[|at| - 1] == STAR
    ensures Chain(AddStar(g, at[|at| - 1], |at| == |p|), p, at + [at[|at| - 1]])
  {
    hide Forward, Backward;
    StarForward(g, p, at, |at| == |p|);
    StarBackward(g, p, at, |at| == |p|);
    var t := at[|at| - 1];
    var g', at' := AddStar(g, t, |at| == |p|), at + [t];
    forall i | 0 <= i < |at'|
      ensures g'[at'[i]].final <==> |at'| == |p| + 1 && p != [] && at'[i] == at'[|p|]
    {
      if i < |at| { assert at'[i] == at[i]; }
    }
  }

  /** Edges that stay keep their reason. */
  lemma KeepEdge(g: Graph, p: Word, at: seq<nat>, x: nat, c: CodeUnit, g': Graph, at': seq<nat>)
    requires |at| <= |at'| <= |p| + 1 && at <= at' && at != []
    requires x in g && x in g' && c in g[x].edges && c in g'[x].edges && g'[x].edges[c] == g[x].edges[c]
    requires Onward(g, p, at, x, c) || (c == STAR && g[x].edges[c] == at[0] && BehindStar(p, at, x))
    ensures Onward(g', p, at', x, c) || (c == STAR && g'[x].edges[c] == at'[0] && BehindStar(p, at', x))
  {
    assert forall j | 0 <= j < |at| :: at'[j] == at[j];
    if Onward(g, p, at, x, c) {
      var j :| 0 < j < |at| && at[j - 1] == x && p[j - 1] == c && g[x].edges[c] == at[j];
      assert at'[j - 1] == x && p[j - 1] == c && g'[x].edges[c] == at'[j];
    } else {
      var s, j :| 0 <= s < j < |at| && at[j] == x && p[s] == STAR;
      assert at'[j] == x && p[s] == STAR;
    }
  }

  /** The new node u, and the edge back it gets if there was a star. */
  ghost predicate Appendable(g: Graph, p: Word, at: seq<nat>, u: nat) {
    && Spine(g, p, at) && |at| <= |p| && p[|at| - 1] != STAR
    && forall x | x in g :: x < u
  }

  lemma LiteralLink(g: Graph, p: Word, at: seq<nat>, u: nat, final: bool, back: map<CodeUnit, nat>, j: nat)
    requires Appendable(g, p, at, u) && 0 < j <= |at|
    requires j < |at| ==> Link(g, p, at, j)
    ensures var i := |at| - 1; var g' := AddLiteral(g, at[i], p[i], u, final, back);
            (at + [u])[j - 1] in g' && Link(g', p, at + [u], j)
  {
    var i: nat := |at| - 1;
    assert at[j - 1] in g && at[j - 1] != u;
    if j <= i && at[j - 1] == at[i] { SpineOrder(g, p, at, j - 1, i); }
  }

  lemma LiteralSpine(g: Graph, p: Word, at: seq<nat>, u: nat, final: bool, back: map<CodeUnit, nat>)
    requires Appendable(g, p, at, u)
    ensures var i := |at| - 1; Spine(AddLiteral(g, at[i], p[i], u, final, back), p, at + [u])
  {
    assert at[|at| - 1] in g && at[|at| - 1] < u;
  }

  lemma LiteralForward(g: Graph, p: Word, at: seq<nat>, u: nat, final: bool, back: map<CodeUnit, nat>)
    requires Appendable(g, p, at, u) && Forward(g, p, at)
    ensures var i := |at| - 1; var g', at' := AddLiteral(g, at[i], p[i], u, final, back), at + [u];
            Spine(g', p, at') && Forward(g', p, at')
  {
    SpineFacts(g, p, at);
    LiteralSpine(g, p, at, u, final, back);
    var i := |at| - 1;
    var g', at' := AddLiteral(g, at[i], p[i], u, final, back), at + [u];
    hide Spine, Link;
    SpineFacts(g', p, at');
    forall j | 0 < j < |at'| ensures Link(g', p, at', j) {
      if j < |at| { assert Link(g, p, at, j); }
      LiteralLink(g, p, at, u, final, back, j);
    }
  }

  lemma LiteralBackward(g: Graph, p: Word, at: seq<nat>, u: nat, final: bool, back: map<CodeUnit, nat>)
    requires Appendable(g, p, at, u) && Backward(g, p, at)
    requires back == map[] || (back == map[STAR := at[0]] && exists s | 0 <= s < |at| - 1 :: p[s] == STAR)
    requires var i := |at| - 1; Spine(AddLiteral(g, at[i], p[i], u, final, back), p, at + [u])
    ensures var i := |at| - 1; Backward(AddLiteral(g, at[i], p[i], u, final, back), p, at + [u])
  {
    SpineFacts(g, p, at);
    hide Spine;
    var i := |at| - 1;
    var t := at[i];
    var g', at' := AddLiteral(g, t, p[i], u, final, back), at + [u];
    assert u !in g && t != u;
    forall m, c | 0 <= m < |at'| && c in g'[at'[m]].edges
      ensures Onward(g', p, at', at'[m], c)
              || (c == STAR && g'[at'[m]].edges[c] == at'[0] && BehindStar(p, at', at'[m]))
    {
      var x := at'[m];
      if x == u {
        var s :| 0 <= s < i && p[s] == STAR;
        assert at'[i + 1] == x && s < i + 1;
      } else if x == t && c == p[i] {
        assert at'[(i + 1) - 1] == x && p[(i + 1) - 1] == c && g'[x].edges[c] == at'[i + 1];
      } else {
        assert m <= i && at[m] == x && c in g[x].edges;
        KeepEdge(g, p, at, x, c, g', at');
      }
    }
  }

  lemma LiteralChain(g: Graph, p: Word, at: seq<nat>, u: nat, back: map<CodeUnit, nat>)
    requires Chain(g, p, at) && Appendable(g, p, at, u)
    requires back == map[] || (back == map[STAR := at[0]] && exists s | 0 <= s < |at| - 1 :: p[s] == STAR)
    ensures Chain(AddLiteral(g, at[|at| - 1], p[|at| - 1], u, |at| == |p|, back), p, at + [u])
  {
    hide Forward, Backward;
    LiteralForward(g, p, at, u, |at| == |p|, back);
    LiteralBackward(g, p, at, u, |at| == |p|, back);
    var i := |at| - 1;
    var g', at' := AddLiteral(g, at[i], p[i], u, |at| == |p|, back), at + [u];
    forall m | 0 <= m < |at'|
      ensures g'[at'[m]].final <==> |at'| == |p| + 1 && p != [] && at'[m] == at'[|p|]
    {
      if m < |at| { assert at'[m] == at[m] && at[m] in g; }
    }
  }

  /** A term of one or more characters becomes a query set that reads what the term means. */
  method FromString(e: Word, firstId: nat) returns (g: Graph, n: nat)
    ensures n in g && Closed(g)
    ensures e != [] ==> forall w :: Matches(g, n, w) <==> Glob(e, w)
    ensures e == [] ==> forall w :: !Matches(g, n, w)
  {
    hide Chain, Glob, Matches;
    n := firstId;
    var t: nat, next: nat := n, firstId + 1;
    g := map[n := Node(false, map[])];
    var r := false;
    var i := 0;
    ghost var at := [n];
    StartChain(e, n);
    while i < |e|
      invariant 0 <= i <= |e|
      invariant |at| == i + 1 && at[0] == n && at[i] == t
      invariant n in g && t in g && Chain(g, e, at) && Spine(g, e, at) && Closed(g)
      invariant forall x | x in g :: x < next
      invariant r <==> exists s | 0 <= s < i :: e[s] == STAR
    {
      var s := e[i];
      var c := i == |e| - 1;
      if s == STAR {
        StarChain(g, e, at);
        r := true;
        g := AddStar(g, t, c);
        at := at + [t];
      } else {
        var back: map<CodeUnit, nat> := if r then map[STAR := n] else map[];
        LiteralChain(g, e, at, next, back);
        g := AddLiteral(g, t, s, next, c, back);
        at := at + [next];
        t := next;
        next := next + 1;
      }
      i := i + 1;
    }
    if e == [] {
      NoMatches(g, e, at);
    } else {
      forall w ensures Matches(g, n, w) <==> Glob(e, w) {
        assert e[0..] == e;
        if Matches(g, n, w) {
          MatchesGlob(g, e, at, 0, w);
        }
        if Glob(e, w) {
          GlobMatches(g, e, at, 0, w);
        }
      }
    }
  }

  lemma StartChain(e: Word, n: nat)
    ensures Chain(map[n := Node(false, map[])], e, [n])
  {
  }

  lemma NoMatches(g: Graph, e: Word, at: seq<nat>)
    requires Chain(g, e, at) && e == []
    ensures forall w :: !Matches(g, at[0], w)
  {
    assert forall c :: c !in g[at[0]].edges;
  }

  // ------------------------------------------------------------- end to end

  /** The search's expansion of a term: the words of the automaton that it stands for, each once; with
      texts that tell nodes apart, these are the indexed words. */
  method ExpandTerm(words: seq<Word>, term: Word, firstId: nat) returns (ok: bool, found: seq<Word>)
    ensures ok <==> TokenSetBuilders.Sorted(words)
    ensures ok ==> forall i, j | 0 <= i < j < |found| :: found[i] != found[j]
    ensures ok ==> forall w :: w in found <==>
              && w != [] && term != [] && Glob(term, w)
              && Accepts(TokenSetBuilders.Built(words, firstId).nodes, firstId, w)
    ensures ok && Unambiguous(TokenSetBuilders.Letters(words)) ==>
              forall w :: w in found <==> w != [] && term != [] && Glob(term, w) && w in words
  {
    hide Glob, Matches, Accepts, Shallow, Unambiguous, Closed, TokenSetBuilders.Sorted, TokenSetBuilders.Minimal,
      TokenSetBuilders.Built;
    var g, root; ghost var depth;
    ok, g, root, depth := TokenSetBuilders.FromArray(words, firstId);
    found := [];
    if !ok { return; }
    var qg, q := FromString(term, firstId);
    var out, top := Intersect(Input(g, root, qg, q), firstId, depth);
    found := TokenSetArrays.ToArray(out, top, depth);
  }
}
