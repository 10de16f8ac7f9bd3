/** TokenSet.prototype.intersect (docs/assets/js/application.js:2221-2244): walks a token set
    without cycles and a query set side by side; a query edge * reads any character.  The result
    is a fresh trie. */
module TokenSetIntersections {
  import TokenSetArrays
  import opened Frontiers
  import opened Options
  import opened TokenSets

  /** The token set g from n0, and the query set qg from q0. */
  datatype Input = Input(g: Graph, n0: nat, qg: Graph, q0: nat)

  datatype Frame = Frame(qNode: nat, output: nat, node: nat)

  /** A query edge and the character it read. */
  type Pair = (CodeUnit, CodeUnit)

  type Trail = seq<Pair>

  predicate Reads(l: CodeUnit, f: CodeUnit) { f == l || l == STAR }

  // ------------------------------------------------------------- languages

  /** Some path of the query set reads w and ends in a final node. */
  ghost predicate Matches(qg: Graph, q: nat, w: Word)
    decreases |w|
  {
    q in qg &&
    if w == [] then qg[q].final
    else exists l | l in qg[q].edges :: Reads(l, w[0]) && Matches(qg, qg[q].edges[l], w[1..])
  }

  ghost predicate Joint(k: Input, n: nat, q: nat, w: Word)
    decreases |w|, 0
  {
    n in k.g && q in k.qg &&
    if w == [] then k.g[n].final && k.qg[q].final
    else exists l :: Via(k, n, q, l, w)
  }

  /** The pair walk can read w over the query edge l. */
  ghost predicate Via(k: Input, n: nat, q: nat, l: CodeUnit, w: Word)
    requires w != [] && n in k.g && q in k.qg
    decreases |w| - 1, 1
  {
    && w[0] in k.g[n].edges && l in k.qg[q].edges && Reads(l, w[0])
    && Joint(k, k.g[n].edges[w[0]], k.qg[q].edges[l], w[1..])
  }

  lemma JointEdge(k: Input, n: nat, q: nat, w: Word) returns (l: CodeUnit)
    requires Joint(k, n, q, w) && w != []
    ensures n in k.g && q in k.qg && Via(k, n, q, l, w)
  {
    l :| Via(k, n, q, l, w);
  }

  lemma {:induction false} JointIsBoth(k: Input, n: nat, q: nat, w: Word)
    ensures Joint(k, n, q, w) <==> Accepts(k.g, n, w) && Matches(k.qg, q, w)
    decreases |w|
  {
    if w != [] && n in k.g && q in k.qg && w[0] in k.g[n].edges {
      var n' := k.g[n].edges[w[0]];
      forall l | l in k.qg[q].edges
        ensures Joint(k, n', k.qg[q].edges[l], w[1..]) <==>
                Accepts(k.g, n', w[1..]) && Matches(k.qg, k.qg[q].edges[l], w[1..])
      {
        JointIsBoth(k, n', k.qg[q].edges[l], w[1..]);
      }
      if Accepts(k.g, n, w) && Matches(k.qg, q, w) {
        var l :| l in k.qg[q].edges && Reads(l, w[0]) && Matches(k.qg, k.qg[q].edges[l], w[1..]);
        assert Via(k, n, q, l, w);
      }
    }
  }

  // ---------------------------------------------------------------- trails

  function Letters(t: Trail): (w: Word)
    ensures |w| == |t| && forall i | 0 <= i < |t| :: w[i] == t[i].1
  {
    seq(|t|, i requires 0 <= i < |t| => t[i].1)
  }

  predicate Edge(k: Input, n: nat, q: nat, p: Pair) {
    n in k.g && q in k.qg && p.1 in k.g[n].edges && p.0 in k.qg[q].edges && Reads(p.0, p.1)
  }

  /** Where the pair walk arrives. */
  function Follow(k: Input, n: nat, q: nat, t: Trail): Option<(nat, nat)>
    decreases |t|
  {
    if n !in k.g || q !in k.qg then None
    else if t == [] then Some((n, q))
    else if Edge(k, n, q, t[0]) then Follow(k, k.g[n].edges[t[0].1], k.qg[q].edges[t[0].0], t[1..])
    else None
  }

  lemma {:induction false} FollowStep(k: Input, n: nat, q: nat, t: Trail, n': nat, q': nat, p: Pair)
    requires Follow(k, n, q, t) == Some((n', q')) && Edge(k, n', q', p)
    requires Closed(k.g) && Closed(k.qg)
    ensures Follow(k, n, q, t + [p]) == Some((k.g[n'].edges[p.1], k.qg[q'].edges[p.0]))
    decreases |t|
  {
    if t == [] {
      assert ([] + [p])[1..] == [];
    } else {
      assert (t + [p])[1..] == t[1..] + [p];
      FollowStep(k, k.g[n].edges[t[0].1], k.qg[q].edges[t[0].0], t[1..], n', q', p);
    }
  }

  /** A trail's end continues what its start can read. */
  lemma {:induction false} JointAlong(k: Input, n: nat, q: nat, t: Trail, n': nat, q': nat, rest: Word)
    requires Follow(k, n, q, t) == Some((n', q')) && Joint(k, n', q', rest)
    ensures Joint(k, n, q, Letters(t) + rest)
    decreases |t|
  {
    if t == [] {
      assert Letters(t) + rest == rest;
    } else {
      JointAlong(k, k.g[n].edges[t[0].1], k.qg[q].edges[t[0].0], t[1..], n', q', rest);
      var w := Letters(t) + rest;
      assert w[1..] == Letters(t[1..]) + rest;
      assert Via(k, n, q, t[0].0, w);
    }
  }

  lemma {:induction false} FollowShallow(k: Input, n: nat, q: nat, t: Trail, h: nat)
    requires Shallow(k.g, n, h) && Follow(k, n, q, t).Some?
    ensures |t| <= h
    ensures Follow(k, n, q, t).value.0 in k.g && Follow(k, n, q, t).value.1 in k.qg
    decreases |t|
  {
    if t != [] {
      FollowShallow(k, k.g[n].edges[t[0].1], k.qg[q].edges[t[0].0], t[1..], h - 1);
    }
  }

  /** All trails from a pair of nodes. */
  ghost function Trails(k: Input, n: nat, q: nat, h: nat): set<Trail>
    requires Shallow(k.g, n, h)
    decreases h
  {
    {[]} +
    (if q !in k.qg then {} else
     set f, l, t |
       f in k.g[n].edges && l in k.qg[q].edges && t in Trails(k, k.g[n].edges[f], k.qg[q].edges[l], h - 1) ::
       [(l, f)] + t)
  }

  lemma {:induction false} TrailsAreAll(k: Input, n: nat, q: nat, h: nat, t: Trail)
    requires Shallow(k.g, n, h) && Follow(k, n, q, t).Some?
    ensures t in Trails(k, n, q, h)
    decreases h
  {
    if t != [] {
      TrailsAreAll(k, k.g[n].edges[t[0].1], k.qg[q].edges[t[0].0], h - 1, t[1..]);
      assert t == [(t[0].0, t[0].1)] + t[1..];
    }
  }

  // ------------------------------------------------------------ output trie

  ghost predicate Spelled(out: Graph, named: map<nat, Word>) {
    && named.Keys == out.Keys
    && forall x, c | x in out && c in out[x].edges ::
         out[x].edges[c] in out && named[out[x].edges[c]] == named[x] + [c]
  }

  /** named gives the one word that leads from t to each output node. */
  ghost predicate Trie(out: Graph, t: nat, named: map<nat, Word>) {
    && Spelled(out, named)
    && t in out && named[t] == []
    && (forall x | x in out :: Walk(out, t, named[x]) == Some(x))
  }

  ghost predicate Recorded(out: Graph, named: map<nat, Word>, w: Word)
    requires named.Keys == out.Keys
  {
    exists x :: x in out && named[x] == w && out[x].final
  }

  lemma {:induction false} SpelledWalk(out: Graph, named: map<nat, Word>, x: nat, w: Word)
    requires Spelled(out, named) && x in out && Walk(out, x, w).Some?
    ensures Walk(out, x, w).value in out && named[Walk(out, x, w).value] == named[x] + w
    decreases |w|
  {
    if w == [] {
      assert named[x] + w == named[x];
    } else {
      var y := out[x].edges[w[0]];
      assert y in out && named[y] == named[x] + [w[0]];
      SpelledWalk(out, named, y, w[1..]);
      assert named[x] + [w[0]] + w[1..] == named[x] + w;
    }
  }

  lemma TrieAccepts(out: Graph, t: nat, named: map<nat, Word>, w: Word)
    requires Trie(out, t, named)
    ensures Accepts(out, t, w) <==> Recorded(out, named, w)
  {
    AcceptsIsWalk(out, t, w);
    if Walk(out, t, w).Some? {
      SpelledWalk(out, named, t, w);
      assert [] + w == w;
    }
  }

  lemma {:induction false} TrieShallow(out: Graph, named: map<nat, Word>, depth: nat, x: nat)
    requires Spelled(out, named) && x in out
    requires forall y | y in out :: |named[y]| <= depth
    ensures Shallow(out, x, depth - |named[x]|)
    decreases depth - |named[x]|
  {
    forall c | c in out[x].edges
      ensures depth - |named[x]| > 0 && Shallow(out, out[x].edges[c], depth - |named[x]| - 1)
    {
      var y := out[x].edges[c];
      assert named[y] == named[x] + [c];
      assert |named[y]| == |named[x]| + 1 <= depth;
      TrieShallow(out, named, depth, y);
    }
  }

  /** (out', named') keeps every labelled node and records word besides, if m. */
  ghost predicate Extends(out: Graph, t: nat, named: map<nat, Word>, out': Graph, named': map<nat, Word>,
                          v: nat, word: Word, m: bool)
    requires Trie(out, t, named)
  {
    && Trie(out', t, named')
    && (forall x | x in out :: x in out' && named'[x] == named[x])
    && v in out' && named'[v] == word
    && (forall x | x in out' :: x in out || named'[x] == word)
    && (forall w :: Recorded(out', named', w) <==> Recorded(out, named, w) || (m && w == word))
  }

  lemma {:induction false} MarkedWalk(out: Graph, v: nat, b: bool, x: nat, w: Word)
    requires v in out
    ensures Walk(out[v := Node(b, out[v].edges)], x, w) == Walk(out, x, w)
    decreases |w|
  {
    if x in out && w != [] && w[0] in out[x].edges {
      MarkedWalk(out, v, b, out[x].edges[w[0]], w[1..]);
    }
  }

  lemma MarkRecords(out: Graph, t: nat, named: map<nat, Word>, v: nat, m: bool, w: Word)
    requires Trie(out, t, named) && v in out
    ensures Recorded(out[v := Node(out[v].final || m, out[v].edges)], named, w) <==>
            Recorded(out, named, w) || (m && w == named[v])
  {
    hide Walk;
    var out' := out[v := Node(out[v].final || m, out[v].edges)];
    if Recorded(out, named, w) {
      var x :| x in out && named[x] == w && out[x].final;
      assert out'[x].final;
    }
    if m && w == named[v] { assert out'[v].final; }
    if Recorded(out', named, w) {
      var x :| x in out' && named[x] == w && out'[x].final;
      if x != v { assert out[x].final; }
    }
  }

  /** The child is there already: its flag may rise. */
  lemma MarkExtends(out: Graph, t: nat, named: map<nat, Word>, o: nat, f: CodeUnit, m: bool)
    requires Trie(out, t, named) && o in out && f in out[o].edges
    ensures var v := out[o].edges[f];
            && v in out
            && Extends(out, t, named, out[v := Node(out[v].final || m, out[v].edges)], named, v, named[o] + [f], m)
  {
    var v := out[o].edges[f];
    MarkTrie(out, t, named, v, out[v].final || m);
    hide Walk, Recorded;
    forall w ensures Recorded(out[v := Node(out[v].final || m, out[v].edges)], named, w) <==>
                     Recorded(out, named, w) || (m && w == named[v])
    {
      MarkRecords(out, t, named, v, m, w);
    }
  }

  lemma MarkTrie(out: Graph, t: nat, named: map<nat, Word>, v: nat, b: bool)
    requires Trie(out, t, named) && v in out
    ensures Trie(out[v := Node(b, out[v].edges)], t, named)
  {
    hide Walk;
    forall x | x in out ensures Walk(out[v := Node(b, out[v].edges)], t, named[x]) == Some(x) {
      MarkedWalk(out, v, b, t, named[x]);
    }
  }

  /** A new node v behind o. */
  function Attach(out: Graph, o: nat, f: CodeUnit, v: nat, m: bool): Graph
    requires o in out
  {
    out[v := Node(m, map[])][o := Node(out[o].final, out[o].edges[f := v])]
  }

  lemma {:induction false} GrownWalk(out: Graph, o: nat, f: CodeUnit, v: nat, m: bool, x: nat, w: Word)
    requires o in out && f !in out[o].edges && v !in out && Walk(out, x, w).Some?
    ensures Walk(Attach(out, o, f, v, m), x, w) == Walk(out, x, w)
    decreases |w|
  {
    if w != [] {
      GrownWalk(out, o, f, v, m, out[x].edges[w[0]], w[1..]);
    }
  }

  lemma GrowRecords(out: Graph, named: map<nat, Word>, o: nat, f: CodeUnit, v: nat, m: bool, w: Word)
    requires named.Keys == out.Keys && o in out && v !in out
    ensures Recorded(Attach(out, o, f, v, m), named[v := named[o] + [f]], w) <==>
            Recorded(out, named, w) || (m && w == named[o] + [f])
  {
    var out', named' := Attach(out, o, f, v, m), named[v := named[o] + [f]];
    assert forall x | x in out :: out'[x].final == out[x].final && named'[x] == named[x];
    assert out'[v].final == m && named'[v] == named[o] + [f];
    if Recorded(out, named, w) {
      var x :| x in out && named[x] == w && out[x].final;
      assert out'[x].final && named'[x] == w;
    }
  }

  /** The child is new. */
  lemma GrowExtends(out: Graph, t: nat, named: map<nat, Word>, o: nat, f: CodeUnit, v: nat, m: bool)
    requires Trie(out, t, named) && o in out && f !in out[o].edges && v !in out
    ensures Extends(out, t, named,
                    Attach(out, o, f, v, m), named[v := named[o] + [f]],
                    v, named[o] + [f], m)
  {
    GrowTrie(out, t, named, o, f, v, m);
    TrieKeys(out, t, named);
    hide Walk, Recorded, Trie, Spelled;
    GrowsByOne(out, named, o, f, v, m);
    hide Attach;
    forall w ensures Recorded(Attach(out, o, f, v, m), named[v := named[o] + [f]], w) <==>
                     Recorded(out, named, w) || (m && w == named[o] + [f])
    {
      GrowRecords(out, named, o, f, v, m, w);
    }
  }

  lemma TrieKeys(out: Graph, t: nat, named: map<nat, Word>)
    requires Trie(out, t, named)
    ensures named.Keys == out.Keys
  {
  }

  lemma GrowsByOne(out: Graph, named: map<nat, Word>, o: nat, f: CodeUnit, v: nat, m: bool)
    requires named.Keys == out.Keys && o in out && v !in out
    ensures var out', named' := Attach(out, o, f, v, m), named[v := named[o] + [f]];
            && out'.Keys == out.Keys + {v} == named'.Keys && named'[v] == named[o] + [f]
            && forall x | x in out :: named'[x] == named[x]
  {
  }

  lemma GrowSpelled(out: Graph, named: map<nat, Word>, o: nat, f: CodeUnit, v: nat, m: bool)
    requires Spelled(out, named) && o in out && f !in out[o].edges && v !in out
    ensures Spelled(Attach(out, o, f, v, m), named[v := named[o] + [f]])
  {
    var out', named' := Attach(out, o, f, v, m), named[v := named[o] + [f]];
    assert v != o;
    forall x, c | x in out' && c in out'[x].edges
      ensures out'[x].edges[c] in out' && named'[out'[x].edges[c]] == named'[x] + [c]
    {
      if x == o && c == f {
        assert out'[x].edges[c] == v;
      } else {
        assert x in out && c in out[x].edges && out'[x].edges[c] == out[x].edges[c];
      }
    }
  }

  lemma GrowTrie(out: Graph, t: nat, named: map<nat, Word>, o: nat, f: CodeUnit, v: nat, m: bool)
    requires Trie(out, t, named) && o in out && f !in out[o].edges && v !in out
    ensures Trie(Attach(out, o, f, v, m), t, named[v := named[o] + [f]])
  {
    var out', named' := Attach(out, o, f, v, m), named[v := named[o] + [f]];
    hide Walk;
    GrowSpelled(out, named, o, f, v, m);
    forall x | x in out' ensures Walk(out', t, named'[x]) == Some(x) {
      if x in out {
        GrownWalk(out, o, f, v, m, t, named[x]);
      } else {
        GrownWalk(out, o, f, v, m, t, named[o]);
        WalkOne(out', t, named[o], f);
      }
    }
  }

  lemma WalkOne(g: Graph, t: nat, w: Word, f: CodeUnit)
    requires Walk(g, t, w).Some?
    ensures var x := Walk(g, t, w).value;
            x in g && f in g[x].edges && g[x].edges[f] in g ==> Walk(g, t, w + [f]) == Some(g[x].edges[f])
  {
    WalkAppend(g, t, w, [f]);
    assert [f][1..] == [];
  }

  // ------------------------------------------------------------------ search

  ghost predicate Goal(k: Input, w: Word) { w != [] && Joint(k, k.n0, k.q0, w) }

  /** The open frames, each with the trail that led to it. */
  ghost predicate FrameAt(k: Input, out: Graph, named: map<nat, Word>, fr: Frame, t: Trail) {
    && fr.output in out && fr.output in named && named[fr.output] == Letters(t)
    && Follow(k, k.n0, k.q0, t) == Some((fr.node, fr.qNode))
  }

  ghost predicate Frames(k: Input, out: Graph, named: map<nat, Word>, stack: seq<Frame>, trails: seq<Trail>) {
    |stack| == |trails| && forall i | 0 <= i < |stack| :: FrameAt(k, out, named, stack[i], trails[i])
  }

  /** Only goals are recorded. */
  ghost predicate Right(k: Input, out: Graph, named: map<nat, Word>)
    requires named.Keys == out.Keys
  {
    forall w | Recorded(out, named, w) :: Goal(k, w)
  }

  ghost predicate Bounded(named: map<nat, Word>, depth: nat) {
    forall x | x in named :: |named[x]| <= depth
  }

  /** An open frame will read w. */
  ghost predicate Waiting(k: Input, stack: seq<Frame>, trails: seq<Trail>, w: Word)
    requires |stack| == |trails|
  {
    exists i :: 0 <= i < |stack| && WaitsFor(k, stack[i], trails[i], w)
  }

  ghost predicate WaitsFor(k: Input, fr: Frame, t: Trail, w: Word) {
    Letters(t) < w && Joint(k, fr.node, fr.qNode, w[|t|..])
  }

  /** The frame under expansion reads w over a pair of edges not yet visited. */
  ghost predicate LeftFor(k: Input, fr: Frame, t: Trail, done: set<Pair>, w: Word) {
    && Letters(t) < w && fr.node in k.g && fr.qNode in k.qg
    && exists l :: (l, w[|t|]) !in done && Via(k, fr.node, fr.qNode, l, w[|t|..])
  }

  ghost predicate Complete(k: Input, out: Graph, named: map<nat, Word>, stack: seq<Frame>, trails: seq<Trail>)
    requires named.Keys == out.Keys && |stack| == |trails|
  {
    forall w | Goal(k, w) :: Recorded(out, named, w) || Waiting(k, stack, trails, w)
  }

  ghost predicate Completing(k: Input, out: Graph, named: map<nat, Word>, stack: seq<Frame>, trails: seq<Trail>,
                             fr: Frame, t: Trail, done: set<Pair>)
    requires named.Keys == out.Keys && |stack| == |trails|
  {
    forall w | Goal(k, w) ::
      Recorded(out, named, w) || Waiting(k, stack, trails, w) || LeftFor(k, fr, t, done, w)
  }

  lemma PopCompletes(k: Input, out: Graph, named: map<nat, Word>, stack: seq<Frame>, trails: seq<Trail>)
    requires named.Keys == out.Keys && |stack| == |trails| > 0
    requires Complete(k, out, named, stack, trails)
    ensures var n := |stack| - 1;
            Completing(k, out, named, stack[..n], trails[..n], stack[n], trails[n], {})
  {
    hide Recorded, Goal;
    var n := |stack| - 1;
    forall w | Goal(k, w)
      ensures Recorded(out, named, w) || Waiting(k, stack[..n], trails[..n], w)
              || LeftFor(k, stack[n], trails[n], {}, w)
    {
      if !Recorded(out, named, w) {
        var i :| 0 <= i < |stack| && WaitsFor(k, stack[i], trails[i], w);
        if i < n {
          assert WaitsFor(k, stack[..n][i], trails[..n][i], w);
        } else {
          var rest := w[|trails[n]|..];
          assert Letters(trails[n]) < w && rest != [] && rest[0] == w[|trails[n]|];
          var l := JointEdge(k, stack[n].node, stack[n].qNode, rest);
        }
      }
    }
  }

  /** Visiting the pair p that can be read: its child is pushed, its end recorded if final. */
  lemma VisitCompletes(k: Input, out: Graph, named: map<nat, Word>, stack: seq<Frame>, trails: seq<Trail>,
                       fr: Frame, t: Trail, done: set<Pair>, p: Pair, out': Graph, named': map<nat, Word>, kid: Frame)
    requires named.Keys == out.Keys && named'.Keys == out'.Keys && |stack| == |trails|
    requires Completing(k, out, named, stack, trails, fr, t, done)
    requires Edge(k, fr.node, fr.qNode, p)
    requires kid.node == k.g[fr.node].edges[p.1] && kid.qNode == k.qg[fr.qNode].edges[p.0]
    requires forall w :: Recorded(out', named', w) <==>
               Recorded(out, named, w) || (Joint(k, kid.node, kid.qNode, []) && w == Letters(t) + [p.1])
    ensures Completing(k, out', named', stack + [kid], trails + [t + [p]], fr, t, done + {p})
  {
    hide Recorded, Goal, Joint;
    var stack', trails' := stack + [kid], trails + [t + [p]];
    forall w | Goal(k, w)
      ensures Recorded(out', named', w) || Waiting(k, stack', trails', w) || LeftFor(k, fr, t, done + {p}, w)
    {
      if Recorded(out, named, w) {
      } else if Waiting(k, stack, trails, w) {
        var i :| 0 <= i < |stack| && WaitsFor(k, stack[i], trails[i], w);
        assert WaitsFor(k, stack'[i], trails'[i], w);
      } else {
        var l :| (l, w[|t|]) !in done && Via(k, fr.node, fr.qNode, l, w[|t|..]);
        if (l, w[|t|]) == p {
          VisitReads(k, fr, t, p, kid, w);
          if WaitsFor(k, kid, t + [p], w) {
            assert WaitsFor(k, stack'[|stack|], trails'[|stack|], w);
          }
        } else {
          assert (l, w[|t|]) !in done + {p};
        }
      }
    }
  }

  lemma VisitReads(k: Input, fr: Frame, t: Trail, p: Pair, kid: Frame, w: Word)
    requires Edge(k, fr.node, fr.qNode, p)
    requires kid.node == k.g[fr.node].edges[p.1] && kid.qNode == k.qg[fr.qNode].edges[p.0]
    requires Letters(t) < w && w[|t|] == p.1 && Via(k, fr.node, fr.qNode, p.0, w[|t|..])
    ensures WaitsFor(k, kid, t + [p], w) || (Joint(k, kid.node, kid.qNode, []) && w == Letters(t) + [p.1])
  {
    hide Joint;
    assert Letters(t + [p]) == Letters(t) + [p.1];
    assert w[|t|..][1..] == w[|t + [p]|..];
    assert w[..|t|] == Letters(t);
    if |w| == |t| + 1 {
      assert w == w[..|t|] + [w[|t|]];
      assert w[|t|..][1..] == [];
    } else {
      assert w[..|t| + 1] == w[..|t|] + [w[|t|]];
    }
  }

  lemma SkipCompletes(k: Input, out: Graph, named: map<nat, Word>, stack: seq<Frame>, trails: seq<Trail>,
                      fr: Frame, t: Trail, done: set<Pair>, p: Pair)
    requires named.Keys == out.Keys && |stack| == |trails|
    requires Completing(k, out, named, stack, trails, fr, t, done) && !Reads(p.0, p.1)
    ensures Completing(k, out, named, stack, trails, fr, t, done + {p})
  {
    hide Recorded, Goal, Joint, Waiting;
    forall w | Goal(k, w) && LeftFor(k, fr, t, done, w)
      ensures LeftFor(k, fr, t, done + {p}, w)
    {
      var l :| (l, w[|t|]) !in done && Via(k, fr.node, fr.qNode, l, w[|t|..]);
      assert (l, w[|t|]) !in done + {p};
    }
  }

  lemma DoneCompletes(k: Input, out: Graph, named: map<nat, Word>, stack: seq<Frame>, trails: seq<Trail>,
                      fr: Frame, t: Trail, done: set<Pair>)
    requires named.Keys == out.Keys && |stack| == |trails|
    requires Completing(k, out, named, stack, trails, fr, t, done)
    requires fr.node in k.g && fr.qNode in k.qg
    requires forall l, f | l in k.qg[fr.qNode].edges && f in k.g[fr.node].edges :: (l, f) in done
    ensures Complete(k, out, named, stack, trails)
  {
    hide Recorded, Goal, Joint, Waiting;
  }

  // -------------------------------------------------------------- the method

  /** What every visit keeps. */
  ghost predicate Steady(k: Input, out: Graph, t0: nat, next: nat, named: map<nat, Word>, depth: nat,
                         stack: seq<Frame>, trails: seq<Trail>)
  {
    && Trie(out, t0, named) && (forall x | x in out :: x < next)
    && Frames(k, out, named, stack, trails) && Right(k, out, named) && Bounded(named, depth)
  }

  /** The visit of the pair p at the frame fr made this of the output. */
  ghost predicate Visited(k: Input, out: Graph, t0: nat, named: map<nat, Word>, fr: Frame, t: Trail, p: Pair,
                          out': Graph, named': map<nat, Word>, kid: Frame)
  {
    && Trie(out, t0, named)
    && FrameAt(k, out, named, fr, t) && Edge(k, fr.node, fr.qNode, p)
    && kid == Frame(k.qg[fr.qNode].edges[p.0], kid.output, k.g[fr.node].edges[p.1])
    && Extends(out, t0, named, out', named', kid.output, Letters(t) + [p.1], Joint(k, kid.node, kid.qNode, []))
  }

  lemma VisitFrames(k: Input, out: Graph, t0: nat, named: map<nat, Word>, depth: nat,
                    stack: seq<Frame>, trails: seq<Trail>, fr: Frame, t: Trail, p: Pair,
                    out': Graph, named': map<nat, Word>, kid: Frame)
    requires Visited(k, out, t0, named, fr, t, p, out', named', kid)
    requires Frames(k, out, named, stack, trails) && Bounded(named, depth)
    requires Follow(k, k.n0, k.q0, t + [p]) == Some((kid.node, kid.qNode)) && |t| + 1 <= depth
    ensures Frames(k, out', named', stack + [kid], trails + [t + [p]]) && Bounded(named', depth)
    ensures FrameAt(k, out', named', fr, t)
  {
    hide Recorded, Joint, Follow, Edge, Walk, Spelled;
    assert Letters(t + [p]) == Letters(t) + [p.1];
    var stack', trails' := stack + [kid], trails + [t + [p]];
    ExtendsKeys(out, t0, named, out', named', kid.output, Letters(t) + [p.1], Joint(k, kid.node, kid.qNode, []));
    forall i | 0 <= i < |stack'| ensures FrameAt(k, out', named', stack'[i], trails'[i]) {
      if i < |stack| { assert FrameAt(k, out, named, stack[i], trails[i]); }
    }
    forall x | x in named' ensures |named'[x]| <= depth {
      assert x in out' && (x in out || named'[x] == Letters(t) + [p.1]);
    }
  }

  lemma ExtendsKeys(out: Graph, t: nat, named: map<nat, Word>, out': Graph, named': map<nat, Word>,
                    v: nat, word: Word, m: bool)
    requires Trie(out, t, named) && Extends(out, t, named, out', named', v, word, m)
    ensures named.Keys == out.Keys && named'.Keys == out'.Keys
  {
  }

  lemma VisitRight(k: Input, out: Graph, t0: nat, named: map<nat, Word>, fr: Frame, t: Trail, p: Pair,
                   out': Graph, named': map<nat, Word>, kid: Frame)
    requires Visited(k, out, t0, named, fr, t, p, out', named', kid)
    requires Right(k, out, named)
    requires Follow(k, k.n0, k.q0, t + [p]) == Some((kid.node, kid.qNode))
    ensures named'.Keys == out'.Keys && Right(k, out', named')
  {
    hide Recorded, Goal, Joint, Follow, Edge, Walk;
    assert Letters(t + [p]) == Letters(t) + [p.1];
    forall w | Recorded(out', named', w) ensures Goal(k, w) {
      if !Recorded(out, named, w) {
        RecordsGoal(k, t + [p], kid.node, kid.qNode, w);
      }
    }
  }

  lemma VisitSteady(k: Input, out: Graph, t0: nat, next: nat, named: map<nat, Word>, depth: nat,
                    stack: seq<Frame>, trails: seq<Trail>, fr: Frame, t: Trail, p: Pair,
                    out': Graph, next': nat, named': map<nat, Word>, kid: Frame)
    requires Steady(k, out, t0, next, named, depth, stack, trails)
    requires Visited(k, out, t0, named, fr, t, p, out', named', kid)
    requires Closed(k.g) && Closed(k.qg) && Shallow(k.g, k.n0, depth)
    requires forall x | x in out' :: x < next'
    ensures Steady(k, out', t0, next', named', depth, stack + [kid], trails + [t + [p]])
    ensures FrameAt(k, out', named', fr, t)
  {
    hide Recorded, Goal, Joint, Follow, Shallow, Closed, Edge, Walk, Frames, Right, Bounded, Spelled;
    FollowStep(k, k.n0, k.q0, t, fr.node, fr.qNode, p);
    FollowShallow(k, k.n0, k.q0, t + [p], depth);
    VisitFrames(k, out, t0, named, depth, stack, trails, fr, t, p, out', named', kid);
    VisitRight(k, out, t0, named, fr, t, p, out', named', kid);
  }

  lemma RecordsGoal(k: Input, t: Trail, n: nat, q: nat, w: Word)
    requires Follow(k, k.n0, k.q0, t) == Some((n, q)) && Joint(k, n, q, [])
    requires t != [] && w == Letters(t)
    ensures Goal(k, w)
  {
    JointAlong(k, k.n0, k.q0, t, n, q, []);
    assert Letters(t) + [] == w;
  }

  lemma SteadyFacts(k: Input, out: Graph, t0: nat, next: nat, named: map<nat, Word>, depth: nat,
                    stack: seq<Frame>, trails: seq<Trail>)
    requires Steady(k, out, t0, next, named, depth, stack, trails)
    ensures Trie(out, t0, named) && named.Keys == out.Keys && |stack| == |trails|
    ensures forall x | x in out :: x < next
  {
  }

  /** The body of intersect's innermost if: the child's output node gets its flag, and the child
      is pushed. */
  method VisitPair(k: Input, out: Graph, next: nat, stack: seq<Frame>, fr: Frame, l: CodeUnit, f: CodeUnit,
                   ghost t0: nat, ghost named: map<nat, Word>, ghost trails: seq<Trail>, ghost t: Trail,
                   ghost depth: nat)
    returns (out': Graph, next': nat, kid: Frame, ghost named': map<nat, Word>)
    requires Closed(k.g) && Closed(k.qg) && Shallow(k.g, k.n0, depth)
    requires Steady(k, out, t0, next, named, depth, stack, trails)
    requires FrameAt(k, out, named, fr, t) && Edge(k, fr.node, fr.qNode, (l, f))
    ensures Steady(k, out', t0, next', named', depth, stack + [kid], trails + [t + [(l, f)]])
    ensures Visited(k, out, t0, named, fr, t, (l, f), out', named', kid)
    ensures FrameAt(k, out', named', fr, t)
  {
    hide Recorded, Goal, Follow, Shallow, Walk, Steady, Spelled, Trie, Extends;
    SteadyFacts(k, out, t0, next, named, depth, stack, trails);
    var h := k.g[fr.node].edges[f];
    var p := k.qg[fr.qNode].edges[l];
    assert h in k.g && p in k.qg;
    var m := k.g[h].final && k.qg[p].final;
    assert m == Joint(k, h, p, []);
    if f in out[fr.output].edges {
      MarkExtends(out, t0, named, fr.output, f, m);
      var v := out[fr.output].edges[f];
      out', next', named' := out[v := Node(out[v].final || m, out[v].edges)], next, named;
      kid := Frame(p, v, h);
    } else {
      GrowExtends(out, t0, named, fr.output, f, next, m);
      out' := Attach(out, fr.output, f, next, m);
      named' := named[next := named[fr.output] + [f]];
      kid := Frame(p, next, h);
      next' := next + 1;
    }
    VisitSteady(k, out, t0, next, named, depth, stack, trails, fr, t, (l, f), out', next', named', kid);
  }

  /** Everything that holds while the pairs of one frame are visited. */
  ghost predicate Expansion(k: Input, out: Graph, t0: nat, next: nat, named: map<nat, Word>, depth: nat,
                            stack: seq<Frame>, trails: seq<Trail>, seen: set<Trail>, fr: Frame, t: Trail,
                            done: set<Pair>)
  {
    && Steady(k, out, t0, next, named, depth, stack, trails)
    && FrameAt(k, out, named, fr, t)
    && Completing(k, out, named, stack, trails, fr, t, done)
    && Expanding(trails, seen, t, done)
  }

  lemma VisitExpands(k: Input, out: Graph, t0: nat, next: nat, named: map<nat, Word>, depth: nat,
                     stack: seq<Frame>, trails: seq<Trail>, seen: set<Trail>, fr: Frame, t: Trail, done: set<Pair>,
                     p: Pair, out': Graph, next': nat, named': map<nat, Word>, kid: Frame)
    requires Expansion(k, out, t0, next, named, depth, stack, trails, seen, fr, t, done) && p !in done
    requires Visited(k, out, t0, named, fr, t, p, out', named', kid)
    requires Steady(k, out', t0, next', named', depth, stack + [kid], trails + [t + [p]])
    requires FrameAt(k, out', named', fr, t)
    ensures Expansion(k, out', t0, next', named', depth, stack + [kid], trails + [t + [p]], seen, fr, t, done + {p})
  {
    hide Recorded, Goal, Joint, Follow, Spelled, Walk, Frames, Right, Bounded, Completing, Expanding;
    SteadyFacts(k, out, t0, next, named, depth, stack, trails);
    SteadyFacts(k, out', t0, next', named', depth, stack + [kid], trails + [t + [p]]);
    VisitCompletes(k, out, named, stack, trails, fr, t, done, p, out', named', kid);
    Push(trails, seen, t, done, p);
  }

  lemma SkipExpands(k: Input, out: Graph, t0: nat, next: nat, named: map<nat, Word>, depth: nat,
                    stack: seq<Frame>, trails: seq<Trail>, seen: set<Trail>, fr: Frame, t: Trail, done: set<Pair>,
                    p: Pair)
    requires Expansion(k, out, t0, next, named, depth, stack, trails, seen, fr, t, done)
    requires !Reads(p.0, p.1)
    ensures Expansion(k, out, t0, next, named, depth, stack, trails, seen, fr, t, done + {p})
  {
    hide Recorded, Goal, Joint, Follow, Spelled, Walk, Frames, Right, Bounded, Completing;
    SteadyFacts(k, out, t0, next, named, depth, stack, trails);
    SkipCompletes(k, out, named, stack, trails, fr, t, done, p);
  }

  lemma ExpansionFacts(k: Input, out: Graph, t0: nat, next: nat, named: map<nat, Word>, depth: nat,
                       stack: seq<Frame>, trails: seq<Trail>, seen: set<Trail>, fr: Frame, t: Trail, done: set<Pair>)
    requires Expansion(k, out, t0, next, named, depth, stack, trails, seen, fr, t, done)
    requires Shallow(k.g, k.n0, depth)
    ensures Steady(k, out, t0, next, named, depth, stack, trails) && FrameAt(k, out, named, fr, t)
    ensures named.Keys == out.Keys && |stack| == |trails| && Fresh(trails, seen)
    ensures fr.node in k.g && fr.qNode in k.qg
    ensures (forall l, f | l in k.qg[fr.qNode].edges && f in k.g[fr.node].edges :: (l, f) in done) ==>
              Complete(k, out, named, stack, trails)
  {
    hide Recorded, Goal, Joint, Spelled, Walk, Frames, Right, Bounded, Shallow, Completing, Complete;
    FollowShallow(k, k.n0, k.q0, t, depth);
    SteadyFacts(k, out, t0, next, named, depth, stack, trails);
    if forall l, f | l in k.qg[fr.qNode].edges && f in k.g[fr.node].edges :: (l, f) in done {
      DoneCompletes(k, out, named, stack, trails, fr, t, done);
    }
  }

  /** The inner loop: one query edge against every edge of the node. */
  method VisitRow(k: Input, out0: Graph, next0: nat, stack0: seq<Frame>, fr: Frame, l: CodeUnit, s: seq<CodeUnit>,
                  ghost t0: nat, ghost named0: map<nat, Word>, ghost trails0: seq<Trail>, ghost t: Trail,
                  ghost done0: set<Pair>, ghost seen: set<Trail>, ghost depth: nat)
    returns (out: Graph, next: nat, stack: seq<Frame>, ghost named: map<nat, Word>, ghost trails: seq<Trail>,
             ghost done: set<Pair>)
    requires Closed(k.g) && Closed(k.qg) && Shallow(k.g, k.n0, depth)
    requires Expansion(k, out0, t0, next0, named0, depth, stack0, trails0, seen, fr, t, done0)
    requires fr.node in k.g && fr.qNode in k.qg && l in k.qg[fr.qNode].edges
    requires forall f | f in s :: f in k.g[fr.node].edges
    requires forall i, j | 0 <= i < j < |s| :: s[i] != s[j]
    requires forall p | p in done0 :: p.0 != l
    ensures Expansion(k, out, t0, next, named, depth, stack, trails, seen, fr, t, done)
    ensures forall p :: p in done <==> p in done0 || (p.0 == l && p.1 in s)
  {
    hide Expansion, Shallow, Closed, Steady, Visited, FrameAt;
    out, next, stack, named, trails, done := out0, next0, stack0, named0, trails0, done0;
    var d := 0;
    while d < |s|
      invariant 0 <= d <= |s|
      invariant Expansion(k, out, t0, next, named, depth, stack, trails, seen, fr, t, done)
      invariant forall p :: p in done <==> p in done0 || (p.0 == l && p.1 in s[..d])
    {
      var f := s[d];
      assert f in s && (l, f) !in done;
      if f == l || l == STAR {
        ExpansionFacts(k, out, t0, next, named, depth, stack, trails, seen, fr, t, done);
        var out', next', kid; ghost var named';
        out', next', kid, named' := VisitPair(k, out, next, stack, fr, l, f, t0, named, trails, t, depth);
        VisitExpands(k, out, t0, next, named, depth, stack, trails, seen, fr, t, done, (l, f), out', next', named',
          kid);
        out, next, named, stack, trails := out', next', named', stack + [kid], trails + [t + [(l, f)]];
      } else {
        SkipExpands(k, out, t0, next, named, depth, stack, trails, seen, fr, t, done, (l, f));
      }
      done := done + {(l, f)};
      assert s[..d + 1] == s[..d] + [f];
      d := d + 1;
    }
    assert s[..d] == s;
  }

  /** One round of the outer loop, after the pop. */
  method Expand(k: Input, out0: Graph, next0: nat, stack0: seq<Frame>, fr: Frame,
                ghost t0: nat, ghost named0: map<nat, Word>, ghost trails0: seq<Trail>, ghost t: Trail,
                ghost seen: set<Trail>, ghost depth: nat)
    returns (out: Graph, next: nat, stack: seq<Frame>, ghost named: map<nat, Word>, ghost trails: seq<Trail>)
    requires Closed(k.g) && Closed(k.qg) && Shallow(k.g, k.n0, depth)
    requires Expansion(k, out0, t0, next0, named0, depth, stack0, trails0, seen, fr, t, {})
    ensures Steady(k, out, t0, next, named, depth, stack, trails) && Fresh(trails, seen)
    ensures named.Keys == out.Keys && |stack| == |trails| && Complete(k, out, named, stack, trails)
  {
    hide Expansion, Shallow, Closed, Steady, Complete, Fresh;
    ExpansionFacts(k, out0, t0, next0, named0, depth, stack0, trails0, seen, fr, t, {});
    out, next, stack, named, trails := out0, next0, stack0, named0, trails0;
    var i := TokenSetArrays.Keys(k.qg[fr.qNode].edges);
    var s := TokenSetArrays.Keys(k.g[fr.node].edges);
    var u := 0;
    ghost var done: set<Pair> := {};
    while u < |i|
      invariant 0 <= u <= |i|
      invariant Expansion(k, out, t0, next, named, depth, stack, trails, seen, fr, t, done)
      invariant forall p :: p in done <==> p.0 in i[..u] && p.1 in s
    {
      assert i[u] in i;
      out, next, stack, named, trails, done :=
        VisitRow(k, out, next, stack, fr, i[u], s, t0, named, trails, t, done, seen, depth);
      assert i[..u + 1] == i[..u] + [i[u]];
      u := u + 1;
    }
    assert i[..u] == i;
    ExpansionFacts(k, out, t0, next, named, depth, stack, trails, seen, fr, t, done);
  }

  /** Without '*', and with it, the words both sets read, but for the empty word: the root of
      the result is never marked. */
  method Intersect(k: Input, firstId: nat, ghost depth: nat) returns (out: Graph, root: nat)
    requires Closed(k.g) && Closed(k.qg) && k.q0 in k.qg
    requires Shallow(k.g, k.n0, depth)
    ensures forall w :: Accepts(out, root, w) <==> w != [] && Accepts(k.g, k.n0, w) && Matches(k.qg, k.q0, w)
    ensures Shallow(out, root, depth)
  {
    hide Shallow, Closed, Steady, Complete, Fresh, Expanding, Completing, FrameAt, Trie, Accepts, Matches, Recorded,
      Trails, Follow;
    root := firstId;
    out := map[root := Node(false, map[])];
    var next: nat := firstId + 1;
    var stack := [Frame(k.q0, root, k.n0)];
    ghost var named: map<nat, Word>, trails: seq<Trail>, seen: set<Trail> := map[root := []], [[]], {};
    Start(k, root, depth);
    while stack != []
      invariant Steady(k, out, root, next, named, depth, stack, trails) && Fresh(trails, seen)
      invariant named.Keys == out.Keys && |stack| == |trails| && Complete(k, out, named, stack, trails)
      decreases Trails(k, k.n0, k.q0, depth) - seen
    {
      var n := stack[|stack| - 1];
      ghost var t := trails[|stack| - 1];
      PopExpands(k, out, root, next, named, depth, stack, trails, seen);
      out, next, stack, named, trails :=
        Expand(k, out, next, stack[..|stack| - 1], n, root, named, trails[..|stack| - 1], t, seen + {t}, depth);
      seen := seen + {t};
    }
    Finished(k, out, root, next, named, depth);
  }

  lemma Start(k: Input, root: nat, depth: nat)
    requires k.q0 in k.qg && Shallow(k.g, k.n0, depth)
    ensures var out: Graph := map[root := Node(false, map[])];
            var named: map<nat, Word> := map[root := []];
            Steady(k, out, root, root + 1, named, depth, [Frame(k.q0, root, k.n0)], [[]])
            && Complete(k, out, named, [Frame(k.q0, root, k.n0)], [[]])
    ensures Fresh<Pair>([[]], {})
  {
    var out: Graph := map[root := Node(false, map[])];
    var named: map<nat, Word> := map[root := []];
    var stack, trails: seq<Trail> := [Frame(k.q0, root, k.n0)], [[]];
    assert Letters([]) == [];
    assert FrameAt(k, out, named, stack[0], trails[0]);
    forall w | Goal(k, w) ensures Waiting(k, stack, trails, w) {
      assert w[0..] == w;
      assert WaitsFor(k, stack[0], trails[0], w);
    }
  }

  lemma PopExpands(k: Input, out: Graph, t0: nat, next: nat, named: map<nat, Word>, depth: nat,
                   stack: seq<Frame>, trails: seq<Trail>, seen: set<Trail>)
    requires Shallow(k.g, k.n0, depth)
    requires Steady(k, out, t0, next, named, depth, stack, trails) && stack != [] && Fresh(trails, seen)
    requires named.Keys == out.Keys && |stack| == |trails| && Complete(k, out, named, stack, trails)
    ensures var n := |stack| - 1;
            Expansion(k, out, t0, next, named, depth, stack[..n], trails[..n], seen + {trails[n]}, stack[n], trails[n],
              {})
            && trails[n] !in seen && trails[n] in Trails(k, k.n0, k.q0, depth)
  {
    hide Shallow, Complete, Fresh, Expanding, Completing, Follow, Spelled, Walk, Trails, Right, Bounded;
    var n := |stack| - 1;
    assert FrameAt(k, out, named, stack[n], trails[n]);
    PopCompletes(k, out, named, stack, trails);
    Pop(trails, seen);
    TrailsAreAll(k, k.n0, k.q0, depth, trails[n]);
  }

  lemma Finished(k: Input, out: Graph, t0: nat, next: nat, named: map<nat, Word>, depth: nat)
    requires Steady(k, out, t0, next, named, depth, [], [])
    requires named.Keys == out.Keys && Complete(k, out, named, [], [])
    ensures forall w :: Accepts(out, t0, w) <==> w != [] && Accepts(k.g, k.n0, w) && Matches(k.qg, k.q0, w)
    ensures Shallow(out, t0, depth)
  {
    hide Accepts, Matches, Joint, Recorded, Walk, Shallow;
    TrieShallow(out, named, depth, t0);
    forall w ensures Accepts(out, t0, w) <==> w != [] && Accepts(k.g, k.n0, w) && Matches(k.qg, k.q0, w) {
      TrieAccepts(out, t0, named, w);
      JointIsBoth(k, k.n0, k.q0, w);
    }
  }
}
