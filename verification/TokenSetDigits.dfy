/** Where the builder goes wrong (docs/assets/js/application.js:2214-2220, 2264-2269): an alphabet with a
    digit and a smaller character has word lists for which a node is merged with a different one that has
    the same text, and exactly these alphabets do. */
module TokenSetDigits {
  import opened TokenSetBuilders
  import opened TokenSets

  // ---------------------------------------------------------------- the words

  function Repeat(c: CodeUnit, n: nat): (w: Word)
    ensures |w| == n && forall i | 0 <= i < n :: w[i] == c
  {
    seq(n, i => c)
  }

  /** The last node of the first word. */
  function Top(d: CodeUnit): nat
    requires IsDigit(d)
  {
    Around(2, d, 1)
  }

  /** Behind 2 and the digit, it reads like 3 behind Top and the digit. */
  function Mid(d: CodeUnit): nat
    requires IsDigit(d)
  {
    Around(1, d, 3)
  }

  function First(c: CodeUnit, d: CodeUnit): Word
    requires IsDigit(d)
  {
    Repeat(c, Top(d) - 1)
  }

  function Second(c: CodeUnit, d: CodeUnit): Word
    requires IsDigit(d)
  {
    [d, c, c] + Repeat(c, Top(d) - 2)
  }

  function Third(c: CodeUnit, d: CodeUnit): Word
    requires IsDigit(d)
  {
    [d, c, d] + Repeat(c, Top(d) - Mid(d))
  }

  function Lost(c: CodeUnit, d: CodeUnit): Word { [d, d, c] }

  function Fifth(c: CodeUnit, d: CodeUnit): Word
    requires IsDigit(d)
  {
    [d, d, d] + Repeat(c, Top(d) - 3)
  }

  function BadWords(c: CodeUnit, d: CodeUnit): seq<Word>
    requires IsDigit(d)
  {
    [First(c, d), Second(c, d), Third(c, d), Lost(c, d), Fifth(c, d)]
  }

  // ---------------------------------------------------------------- the chain

  /** Node i of the first word when the word is over: it has m - i steps to go. */
  function ChainNode(c: CodeUnit, m: nat, i: nat): Node {
    if i == m then Node(true, map[]) else Node(false, map[c := i + 1])
  }

  function ChainText(c: CodeUnit, m: nat, i: nat): Word { Signature(ChainNode(c, m, i)) }

  ghost predicate Chained(b: Build, c: CodeUnit, m: nat) {
    && (forall i | 2 <= i <= m :: i in b.nodes && b.nodes[i] == ChainNode(c, m, i))
    && (forall i | 2 <= i <= m :: ChainText(c, m, i) in b.minimized && b.minimized[ChainText(c, m, i)] == i)
  }

  /** The root, then nodes beyond the chain. */
  ghost predicate Apart(path: seq<nat>, m: nat) {
    && path != [] && path[0] == 1
    && (forall x | 0 < x < |path| :: path[x] > m)
    && (forall x, y | 0 <= x < y < |path| :: path[x] < path[y])
  }

  /** The last k open nodes go on with c to the end, where j more steps are due. */
  ghost predicate IsRun(b: Build, c: CodeUnit, m: nat, k: nat, j: nat) {
    && Formed(b) && Apart(b.path, m) && 1 <= k < |b.path| && k + j <= m - 1
    && b.nodes[b.path[|b.path| - 1]] == ChainNode(c, m, m - j)
    && (forall x | |b.path| - k <= x < |b.path| - 1 ::
          b.word[x] == c && b.nodes[b.path[x]] == Node(false, map[c := b.path[x + 1]]))
  }

  /** q is not open from place n on. */
  ghost predicate Off(path: seq<nat>, n: nat, q: nat) {
    forall x | n <= x < |path| :: path[x] != q
  }

  /** What closing the last k open nodes of b leaves alone. */
  ghost predicate Rest(b: Build, r: Build, n: nat) {
    && n < |b.path| && r == b.(path := b.path[..n + 1], nodes := r.nodes)
    && (forall q :: q in b.nodes <==> q in r.nodes)
    && (forall q | q in b.nodes && Off(b.path, n, q) :: r.nodes[q] == b.nodes[q])
  }

  /** Closing a node that is registered. */
  lemma Merge(b: Build)
    requires Formed(b) && |b.path| > 1 && Signature(b.nodes[b.path[|b.path| - 1]]) in b.minimized
    ensures var k, i := |b.path| - 1, b.minimized[Signature(b.nodes[b.path[|b.path| - 1]])];
            ClosedLast(b) == b.(path := b.path[..k], nodes := Redirect(b.nodes, b.path[k - 1], b.word[k - 1], i))
  {
    hide Signature;
  }

  lemma CloseOne(b: Build, c: CodeUnit, m: nat, i: nat)
    requires Formed(b) && Apart(b.path, m) && |b.path| > 1 && Chained(b, c, m) && 2 <= i <= m
    requires b.nodes[b.path[|b.path| - 1]] == ChainNode(c, m, i)
    ensures var k := |b.path| - 1;
            ClosedLast(b) == b.(path := b.path[..k], nodes := Redirect(b.nodes, b.path[k - 1], b.word[k - 1], i))
  {
    hide Signature, ClosedLast;
    assert ChainText(c, m, i) in b.minimized;
    Merge(b);
  }

  lemma CloseOneChained(b: Build, c: CodeUnit, m: nat, i: nat)
    requires Formed(b) && Apart(b.path, m) && |b.path| > 1 && Chained(b, c, m)
    ensures var k := |b.path| - 1;
            Chained(b.(path := b.path[..k], nodes := Redirect(b.nodes, b.path[k - 1], b.word[k - 1], i)), c, m)
  {
    hide Signature, ChainNode;
  }

  /** What one step of closing a run does. */
  ghost predicate OneClosed(b: Build, s: Build, i: nat) {
    && |b.path| > 1 && Formed(b)
    && s == b.(path := b.path[..|b.path| - 1], nodes := s.nodes)
    && s.nodes == Redirect(b.nodes, b.path[|b.path| - 2], b.word[|b.path| - 2], i)
  }

  lemma RunStep(b: Build, c: CodeUnit, m: nat, k: nat, j: nat)
    requires Chained(b, c, m) && IsRun(b, c, m, k, j)
    ensures OneClosed(b, ClosedLast(b), m - j) && Chained(ClosedLast(b), c, m)
  {
    CloseOne(b, c, m, m - j);
    CloseOneChained(b, c, m, m - j);
    hide Chained, ChainNode, ClosedLast;
  }

  lemma RunNext(b: Build, s: Build, c: CodeUnit, m: nat, k: nat, j: nat)
    requires IsRun(b, c, m, k, j) && OneClosed(b, s, m - j) && k > 1
    ensures IsRun(s, c, m, k - 1, j + 1)
    ensures forall q :: q in b.nodes <==> q in s.nodes
    ensures forall q | q in b.nodes && q != b.path[|b.path| - 2] :: s.nodes[q] == b.nodes[q]
  {
    var l := |b.path| - 1;
    forall x | 0 <= x < l - 1 ensures s.nodes[s.path[x]] == b.nodes[b.path[x]] { assert b.path[x] != b.path[l - 1]; }
    assert b.nodes[b.path[l - 1]] == Node(false, map[c := b.path[l]]);
    var e: map<CodeUnit, nat> := map[c := b.path[l]];
    assert e[c := m - j] == map[c := m - j];
  }

  /** In r, open node n of b leads to i with the character of the word. */
  ghost predicate Leads(b: Build, r: Build, n: nat, i: nat) {
    && n < |b.path| <= |b.word| + 1 && n < |b.word| && b.path[n] in b.nodes && b.path[n] in r.nodes
    && r.nodes[b.path[n]] == Node(b.nodes[b.path[n]].final, b.nodes[b.path[n]].edges[b.word[n] := i])
  }

  lemma RunSize(b: Build, c: CodeUnit, m: nat, k: nat, j: nat)
    requires IsRun(b, c, m, k, j)
    ensures Formed(b) && Apart(b.path, m) && 1 <= k < |b.path| && k + j <= m - 1
  {
  }

  lemma RunEnd(b: Build, s: Build, c: CodeUnit, m: nat, j: nat)
    requires IsRun(b, c, m, 1, j) && OneClosed(b, s, m - j)
    ensures Rest(b, s, |b.path| - 2) && Leads(b, s, |b.path| - 2, m - j)
  {
    hide Apart, ChainNode;
  }

  lemma ClosedToStep(b: Build, n: nat)
    requires Formed(b) && n + 1 < |b.path|
    ensures ClosedTo(b, n) == ClosedTo(ClosedLast(b), n)
    ensures n + 2 == |b.path| ==> ClosedTo(b, n) == ClosedLast(b)
  {
    hide ClosedLast;
  }

  /** Such a run is merged with the chain, node by node. */
  lemma {:induction false} CloseRun(b: Build, c: CodeUnit, m: nat, k: nat, j: nat)
    requires Chained(b, c, m) && IsRun(b, c, m, k, j)
    ensures Formed(b) && k < |b.path| && k + j < m
    ensures var n := |b.path| - 1 - k;
            Rest(b, ClosedTo(b, n), n) && Chained(ClosedTo(b, n), c, m) && Leads(b, ClosedTo(b, n), n, m - j - k + 1)
    decreases k
  {
    hide Chained, ClosedLast, ClosedTo, IsRun, Rest, Leads, Formed;
    RunSize(b, c, m, k, j);
    var n, s := |b.path| - 1 - k, ClosedLast(b);
    RunStep(b, c, m, k, j);
    ClosedToStep(b, n);
    if k == 1 {
      RunEnd(b, s, c, m, j);
    } else {
      RunNext(b, s, c, m, k, j);
      CloseRun(s, c, m, k - 1, j + 1);
      assert |s.path| - 1 - (k - 1) == n;
      RestAfter(b, s, ClosedTo(s, n), m, n, m - j - k + 1);
    }
  }

  lemma RestAfter(b: Build, s: Build, r: Build, m: nat, n: nat, i: nat)
    requires |b.path| > 1 && n < |b.path| - 2 && Formed(b) && Apart(b.path, m)
    requires s == b.(path := b.path[..|b.path| - 1], nodes := s.nodes) && Rest(s, r, n) && Leads(s, r, n, i)
    requires forall q :: q in b.nodes <==> q in s.nodes
    requires forall q | q in b.nodes && q != b.path[|b.path| - 2] :: s.nodes[q] == b.nodes[q]
    ensures Rest(b, r, n) && Leads(b, r, n, i)
  {
    assert s.path[..n + 1] == b.path[..n + 1];
    assert b.path[n] != b.path[|b.path| - 2];
    forall q | q in b.nodes && Off(b.path, n, q) ensures r.nodes[q] == b.nodes[q] {
      assert b.path[|b.path| - 2] != q && Off(s.path, n, q);
    }
  }

  // ------------------------------------------------------------- a new branch

  /** What spelling the rest of the word adds: a line of fresh nodes. */
  ghost predicate Branched(b: Build, r: Build) { Outlined(b, r) && LineNodes(b, r) }

  ghost predicate Outlined(b: Build, r: Build) {
    && 0 < |b.path| <= |b.word| + 1 && |r.path| == |b.word| + 1
    && r == b.(path := r.path, nodes := r.nodes, nextId := b.nextId + |b.word| + 1 - |b.path|)
    && (forall i | 0 <= i < |b.path| :: r.path[i] == b.path[i])
    && (forall i | |b.path| <= i < |r.path| :: r.path[i] == b.nextId + (i - |b.path|))
    && (forall q :: q in r.nodes <==> q in b.nodes || b.nextId <= q < r.nextId)
    && (forall q | q in b.nodes && q != b.path[|b.path| - 1] :: r.nodes[q] == b.nodes[q])
  }

  ghost predicate LineNodes(b: Build, r: Build)
    requires 0 < |b.path| <= |b.word| + 1
  {
    var k := |b.path| - 1;
    var x := b.path[k];
    && x in b.nodes && x in r.nodes
    && r.nodes[x] == (if k == |b.word| then b.nodes[x]
                      else Node(b.nodes[x].final, b.nodes[x].edges[b.word[k] := b.nextId]))
    && forall q | b.nextId <= q < b.nextId + |b.word| - k ::
         q in r.nodes
         && r.nodes[q] == if q == b.nextId + |b.word| - k - 1 then Node(false, map[])
                          else Node(false, map[b.word[k + 1 + (q - b.nextId)] := q + 1])
  }

  lemma OutlineStep(b: Build, s: Build, r: Build)
    requires Formed(b) && Numbered(b.nodes, b.nextId) && |b.path| <= |b.word|
    requires s == Extended(b) && Outlined(s, r)
    ensures Outlined(b, r)
  {
    assert s.path[|b.path|] == b.nextId;
  }

  lemma LineStep(b: Build, s: Build, r: Build)
    requires Formed(b) && Numbered(b.nodes, b.nextId) && |b.path| <= |b.word|
    requires s == Extended(b) && Outlined(s, r) && LineNodes(s, r)
    ensures LineNodes(b, r)
  {
    var k := |b.path| - 1;
    assert s.path[k + 1] == b.nextId;
    assert b.path[k] in b.nodes && b.path[k] < b.nextId;
  }

  lemma {:induction false} SpelledBranches(b: Build)
    requires Formed(b) && Numbered(b.nodes, b.nextId)
    ensures Branched(b, Spelled(b)) && Numbered(Spelled(b).nodes, Spelled(b).nextId)
    decreases |b.word| - |b.path|
  {
    if |b.path| <= |b.word| {
      var s := Extended(b);
      SpelledBranches(s);
      hide Outlined, LineNodes, Extended;
      OutlineStep(b, s, Spelled(s));
      LineStep(b, s, Spelled(s));
    }
  }

  /** Base of the steps below: the chain is registered, and the path lies beyond it. */
  ghost predicate Based(b: Build, c: CodeUnit, m: nat) {
    Formed(b) && Chained(b, c, m) && Apart(b.path, m) && Numbered(b.nodes, b.nextId) && b.nextId > m
  }

  lemma BranchApart(b: Build, r: Build, m: nat)
    requires Formed(b) && Apart(b.path, m) && Numbered(b.nodes, b.nextId) && b.nextId > m && Branched(b, r)
    ensures Apart(r.path, m)
  {
    hide LineNodes;
    forall x, y | 0 <= x < y < |r.path| ensures r.path[x] < r.path[y] {
      if x < |b.path| { assert b.path[x] in b.nodes; }
    }
  }

  lemma BranchChained(b: Build, r: Build, c: CodeUnit, m: nat)
    requires Based(b, c, m) && Branched(b, r)
    ensures Formed(r) ==> Chained(Marked(r), c, m)
  {
    hide LineNodes, ChainText, ChainNode;
    var x := b.path[|b.path| - 1];
    assert x == 1 || x > m;
    var l := r.path[|r.path| - 1];
    assert l == 1 || l > m;
    forall i | 2 <= i <= m ensures i in b.nodes && i != x && i != l { assert ChainNode(c, m, i) == b.nodes[i]; }
  }

  lemma BranchIsRun(b: Build, r: Build, c: CodeUnit, m: nat)
    requires Based(b, c, m) && Branched(b, r) && Formed(r) && Apart(r.path, m)
    requires |b.path| <= |b.word| && |b.word| + 2 <= |b.path| + m
    requires forall i | |b.path| <= i < |b.word| :: b.word[i] == c
    ensures IsRun(Marked(r), c, m, |b.word| + 1 - |b.path|, 0)
  {
    var h, n := Marked(r), |b.word| + 1 - |b.path|;
    var l := h.path[|h.path| - 1];
    assert l == b.nextId + n - 1;
    assert h.nodes[l] == ChainNode(c, m, m);
    forall x | |h.path| - n <= x < |h.path| - 1
      ensures h.word[x] == c && h.nodes[h.path[x]] == Node(false, map[c := h.path[x + 1]])
    {
      assert h.path[x] == b.nextId + (x - |b.path|) && h.path[x + 1] == h.path[x] + 1;
    }
  }

  /** A branch and back: what is left of it is one edge into the chain. */
  function BranchAndBack(b: Build): Build {
    if Formed(b) then ClosedTo(Marked(Spelled(b)), |b.path| - 1) else b
  }

  ghost predicate Back(b: Build, r: Build, i: nat) {
    && 0 < |b.path| <= |b.word|
    && r.path == b.path && r.word == b.word && r.minimized == b.minimized
    && (forall q | q in b.nodes && q != b.path[|b.path| - 1] :: q in r.nodes && r.nodes[q] == b.nodes[q])
    && Leads(b, r, |b.path| - 1, i)
  }

  lemma BranchRuns(b: Build, c: CodeUnit, m: nat)
    requires Based(b, c, m)
    requires |b.path| <= |b.word| && |b.word| + 2 <= |b.path| + m
    requires forall i | |b.path| <= i < |b.word| :: b.word[i] == c
    ensures Branched(b, Spelled(b)) && Apart(Spelled(b).path, m)
    ensures Chained(Marked(Spelled(b)), c, m) && IsRun(Marked(Spelled(b)), c, m, |b.word| + 1 - |b.path|, 0)
  {
    var g := Spelled(b);
    SpelledBranches(b);
    hide Chained, IsRun, Branched, Apart, Numbered, Marked, Spelled;
    BranchApart(b, g, m);
    BranchChained(b, g, c, m);
    BranchIsRun(b, g, c, m);
  }

  lemma BasedFacts(b: Build, c: CodeUnit, m: nat)
    requires Based(b, c, m)
    ensures Formed(b) && Numbered(b.nodes, b.nextId) && Apart(b.path, m) && b.nextId > m
  {
  }

  lemma BasedFrom(b: Build, c: CodeUnit, m: nat)
    requires Formed(b) && Numbered(b.nodes, b.nextId) && Apart(b.path, m) && b.nextId > m && Chained(b, c, m)
    ensures Based(b, c, m)
  {
  }

  lemma BranchBack(b: Build, c: CodeUnit, m: nat)
    requires Based(b, c, m)
    requires |b.path| <= |b.word| && |b.word| + 2 <= |b.path| + m
    requires forall i | |b.path| <= i < |b.word| :: b.word[i] == c
    ensures Formed(b)
    ensures var r := BranchAndBack(b);
            && Back(b, r, m - (|b.word| - |b.path|)) && Based(r, c, m)
            && r.nextId == b.nextId + |b.word| + 1 - |b.path|
  {
    hide Chained, IsRun, Branched, Leads, Back, Rest, Apart, Numbered, Spelled, ClosedTo, Based;
    BasedFacts(b, c, m);
    var g, n, t := Spelled(b), |b.word| + 1 - |b.path|, |b.path| - 1;
    BranchRuns(b, c, m);
    var h := Marked(g);
    assert |h.path| - 1 - n == t;
    CloseRun(h, c, m, n, 0);
    var r := ClosedTo(h, t);
    assert r == BranchAndBack(b);
    hide BranchAndBack;
    ApartGrows(g.path, m);
    BackFrom(b, g, h, r, m - n + 1);
    BasedFrom(r, c, m);
  }

  lemma ApartGrows(path: seq<nat>, m: nat)
    requires Apart(path, m)
    ensures forall x, y | 0 <= x < y < |path| :: path[x] < path[y]
  {
  }

  lemma BackLeads(b: Build, g: Build, h: Build, r: Build, i: nat)
    requires Formed(b) && |b.path| <= |b.word| && Branched(b, g) && Formed(g) && h == Marked(g)
    requires b.path[|b.path| - 1] != g.path[|g.path| - 1]
    requires Leads(h, r, |b.path| - 1, i)
    ensures Leads(b, r, |b.path| - 1, i)
  {
    var t, x := |b.path| - 1, b.path[|b.path| - 1];
    assert h.path[t] == x;
    assert b.nodes[x].edges[b.word[t] := b.nextId][b.word[t] := i] == b.nodes[x].edges[b.word[t] := i];
  }

  lemma BackRest(b: Build, g: Build, h: Build, r: Build)
    requires Formed(b) && Numbered(b.nodes, b.nextId) && |b.path| <= |b.word| && Outlined(b, g) && Formed(g)
    requires h == Marked(g) && Rest(h, r, |b.path| - 1)
    ensures r.path == b.path && r.word == b.word && r.minimized == b.minimized
    ensures r.nextId == b.nextId + |b.word| + 1 - |b.path| && Numbered(r.nodes, r.nextId)
    ensures forall q | q in b.nodes && q != b.path[|b.path| - 1] :: q in r.nodes && r.nodes[q] == b.nodes[q]
  {
    var t, x := |b.path| - 1, b.path[|b.path| - 1];
    var l := g.path[|g.path| - 1];
    assert l >= b.nextId;
    forall q | q in b.nodes && q != x ensures q in r.nodes && r.nodes[q] == b.nodes[q] {
      forall y | t <= y < |h.path| ensures h.path[y] != q { }
      assert Off(h.path, t, q);
    }
  }

  lemma BackFrom(b: Build, g: Build, h: Build, r: Build, i: nat)
    requires Formed(b) && Numbered(b.nodes, b.nextId) && |b.path| <= |b.word| && Branched(b, g) && Formed(g)
    requires (forall x, y | 0 <= x < y < |g.path| :: g.path[x] < g.path[y])
    requires h == Marked(g) && Rest(h, r, |b.path| - 1) && Leads(h, r, |b.path| - 1, i)
    ensures Back(b, r, i) && Numbered(r.nodes, r.nextId) && r.path == b.path
    ensures r.nextId == b.nextId + |b.word| + 1 - |b.path|
  {
    assert b.path[|b.path| - 1] == g.path[|b.path| - 1] != g.path[|g.path| - 1];
    hide Formed, Rest, Leads, Outlined, LineNodes, Numbered, Marked;
    BackLeads(b, g, h, r, i);
    BackRest(b, g, h, r);
  }

  // ------------------------------------------------------------ the first word

  lemma {:induction false} DecimalSize(n: nat)
    requires n < 1000
    ensures |Decimal(n)| == if n < 10 then 1 else if n < 100 then 2 else 3
  {
    if n >= 10 { DecimalSize(n / 10); }
  }

  lemma LeafText(m: nat, c: CodeUnit)
    ensures ChainText(c, m, m) == [49]
  {
    var n := ChainNode(c, m, m);
    assert n.edges.Keys == {};
  }

  lemma InnerText(m: nat, c: CodeUnit, i: nat)
    requires i != m
    ensures ChainText(c, m, i) == [48] + ([c] + Decimal(i + 1))
  {
    OneEdge(false, c, i + 1);
  }

  lemma ChainTextShort(c: CodeUnit, m: nat, i: nat)
    requires i < 999
    ensures |ChainText(c, m, i)| <= 5
  {
    hide ChainText;
    if i == m { LeafText(m, c); } else { InnerText(m, c, i); DecimalSize(i + 1); }
  }

  lemma ChainTextInjective(c: CodeUnit, m: nat, i: nat, j: nat)
    requires ChainText(c, m, i) == ChainText(c, m, j)
    ensures i == j
  {
    hide ChainText, Decimal;
    if i == m { LeafText(m, c); } else { InnerText(m, c, i); }
    if j == m { LeafText(m, c); } else { InnerText(m, c, j); }
    if i != m && j != m {
      var s, t := [c] + Decimal(i + 1), [c] + Decimal(j + 1);
      assert s == ([48] + s)[1..] && t == ([48] + t)[1..];
      assert Decimal(i + 1) == s[1..] && Decimal(j + 1) == t[1..];
      DecimalInjective(i + 1, j + 1);
    }
  }

  /** The first word's nodes beyond j are registered. */
  ghost predicate Registering(b: Build, c: CodeUnit, m: nat, j: nat) {
    && Formed(b) && |b.path| == j && (forall x | 0 <= x < j :: b.path[x] == x + 1)
    && (forall i | 2 <= i <= m :: i in b.nodes && b.nodes[i] == ChainNode(c, m, i))
    && (forall t | t in b.minimized :: exists i :: j < i <= m && t == ChainText(c, m, i))
    && (forall i | j < i <= m :: ChainText(c, m, i) in b.minimized && b.minimized[ChainText(c, m, i)] == i)
    && 1 in b.nodes && b.nodes[1] == Node(false, map[c := 2])
    && Numbered(b.nodes, b.nextId) && b.nextId == m + 1
  }

  lemma RegisterOne(b: Build, c: CodeUnit, m: nat, j: nat)
    requires Registering(b, c, m, j) && 1 < j <= m
    ensures Registering(ClosedLast(b), c, m, j - 1)
  {
    hide Signature, Numbered;
    var t := ChainText(c, m, j);
    forall i | j < i <= m ensures t != ChainText(c, m, i) {
      if t == ChainText(c, m, i) { ChainTextInjective(c, m, i, j); }
    }
    assert t !in b.minimized;
  }

  lemma {:induction false} RegisterAll(b: Build, c: CodeUnit, m: nat, j: nat)
    requires Registering(b, c, m, j) && 1 <= j <= m
    ensures Formed(b) && |b.path| == j && Registering(ClosedTo(b, 0), c, m, 1)
    decreases j
  {
    if j > 1 {
      ClosedToStep(b, 0);
      hide Signature, ChainNode, ChainText;
      RegisterOne(b, c, m, j);
      RegisterAll(ClosedLast(b), c, m, j - 1);
    }
  }

  predicate Short(minimized: map<Word, nat>, n: nat) { forall t | t in minimized :: |t| <= n }

  lemma RegisteredBase(b: Build, c: CodeUnit, m: nat)
    requires Registering(b, c, m, 1) && 2 <= m < 999
    ensures Based(b, c, m) && b.path == [1] && b.nodes[1] == Node(false, map[c := 2]) && b.nextId == m + 1
    ensures Short(b.minimized, 5)
  {
    hide Signature, ChainNode, ChainText;
    forall t | t in b.minimized ensures |t| <= 5 {
      var i :| 1 < i <= m && t == ChainText(c, m, i);
      ChainTextShort(c, m, i);
    }
  }

  lemma FirstLine(c: CodeUnit, m: nat)
    requires m >= 2
    ensures var b := Turned(Started(1), Repeat(c, m - 1));
            && Formed(b) && Branched(b, Spelled(b))
            && Numbered(Spelled(b).nodes, Spelled(b).nextId) && Spelled(b).nextId == m + 1
            && b.path == [1] && b.nodes == map[1 := Node(false, map[])] && b.minimized == map[] && b.nextId == 2
            && b.word == Repeat(c, m - 1)
  {
    var b := Turned(Started(1), Repeat(c, m - 1));
    SpelledBranches(b);
    hide LineNodes, Spelled, Chars;
  }

  lemma LineFacts(b: Build, g: Build, c: CodeUnit, m: nat)
    requires b.path == [1] && b.nodes == map[1 := Node(false, map[])] && b.nextId == 2
    requires m >= 2 && b.word == Repeat(c, m - 1) && Branched(b, g)
    ensures |g.path| == m && forall x | 0 <= x < m :: g.path[x] == x + 1
    ensures 1 in g.nodes && g.nodes[1] == Node(false, map[c := 2])
    ensures forall q | 2 <= q <= m ::
              q in g.nodes && g.nodes[q] == if q == m then Node(false, map[]) else Node(false, map[c := q + 1])
  {
    var e: map<CodeUnit, nat> := map[];
    assert e[c := 2] == map[c := 2];
  }

  /** The first word's line is open. */
  lemma FirstOpen(c: CodeUnit, m: nat)
    requires m >= 2
    ensures var b := Turned(Started(1), Repeat(c, m - 1));
            Formed(b) && Registering(Marked(Spelled(b)), c, m, m)
  {
    FirstLine(c, m);
    var b := Turned(Started(1), Repeat(c, m - 1));
    var g := Spelled(b);
    LineFacts(b, g, c, m);
    assert g.minimized == map[] by { hide LineNodes; }
    hide Spelled, Turned, Branched, Repeat;
    assert g.path[m - 1] == m;
  }

  // ----------------------------------------------------------- the other words

  /** From one closed path to the next. */
  function Next(b: Build, e: Word, n: nat): Build {
    if Formed(b) && |b.path| <= |e| + 1 && n <= |e| then ClosedTo(Marked(Spelled(Turned(b, e))), n) else b
  }

  lemma TurnedBased(b: Build, c: CodeUnit, m: nat, e: Word)
    requires Based(b, c, m) && |b.path| <= |e| + 1
    ensures Based(Turned(b, e), c, m)
  {
    hide Chained, Apart, Numbered;
    assert Chained(Turned(b, e), c, m) by { SameChain(b, Turned(b, e), c, m); }
  }

  lemma SameChain(b: Build, r: Build, c: CodeUnit, m: nat)
    requires Chained(b, c, m) && r.nodes == b.nodes && r.minimized == b.minimized
    ensures Chained(r, c, m)
  {
  }

  lemma ExtendedBased(b: Build, c: CodeUnit, m: nat)
    requires Based(b, c, m) && |b.path| <= |b.word|
    ensures var r := Extended(b);
            && Based(r, c, m) && Spelled(b) == Spelled(r)
            && r.nodes == Grow(b.nodes, b.path[|b.path| - 1], b.word[|b.path| - 1], b.nextId)
  {
    hide ChainNode, ChainText, Spelled;
    var x := b.path[|b.path| - 1];
    assert x == 1 || x > m;
    assert Spelled(b) == Spelled(Extended(b)) by { SpelledStep(b); }
    forall i | 2 <= i <= m ensures Extended(b).nodes[i] == ChainNode(c, m, i) {
      assert b.nodes[i] == ChainNode(c, m, i);
    }
  }

  lemma SpelledStep(b: Build)
    requires Formed(b) && |b.path| <= |b.word|
    ensures Spelled(b) == Spelled(Extended(b))
  {
    hide Extended;
  }

  lemma {:induction false} ClosedToVia(b: Build, k: nat, n: nat)
    requires Formed(b) && n <= k < |b.path|
    ensures ClosedTo(b, n) == ClosedTo(ClosedTo(b, k), n)
    decreases |b.path|
  {
    hide ClosedLast;
    if |b.path| > k + 1 { ClosedToVia(ClosedLast(b), k, n); }
  }

  /** Closing a node that is not registered. */
  lemma Keep(b: Build)
    requires Formed(b) && |b.path| > 1 && Signature(b.nodes[b.path[|b.path| - 1]]) !in b.minimized
    ensures var t, k, r := Signature(b.nodes[b.path[|b.path| - 1]]), |b.path| - 1, ClosedLast(b);
            && r.minimized == b.minimized[t := b.path[k]] && r.nodes == b.nodes && r.path == b.path[..k]
            && r.word == b.word && r.nextId == b.nextId
  {
    hide Signature;
  }

  lemma KeepBased(b: Build, c: CodeUnit, m: nat)
    requires Based(b, c, m) && |b.path| > 1 && Signature(b.nodes[b.path[|b.path| - 1]]) !in b.minimized
    ensures Based(ClosedLast(b), c, m)
  {
    Keep(b);
    hide Signature, ChainNode, ClosedLast;
    var t := Signature(b.nodes[b.path[|b.path| - 1]]);
    forall i | 2 <= i <= m ensures ChainText(c, m, i) != t { assert ChainText(c, m, i) in b.minimized; }
  }

  /** Node q has just these edges. */
  predicate Has(b: Build, q: nat, e: map<CodeUnit, nat>) { q in b.nodes && b.nodes[q] == Node(false, e) }

  ghost predicate AfterFirst(b: Build, c: CodeUnit, d: CodeUnit)
    requires IsDigit(d)
  {
    && Based(b, c, Top(d)) && b.path == [1] && b.nextId == Top(d) + 1 && Short(b.minimized, 5)
    && Has(b, 1, map[c := 2])
  }

  ghost predicate AfterSecond(b: Build, c: CodeUnit, d: CodeUnit)
    requires IsDigit(d)
  {
    var m := Top(d);
    && Based(b, c, m) && b.path == [1, m + 1, m + 2] && Short(b.minimized, 5)
    && Has(b, 1, map[c := 2, d := m + 1]) && Has(b, m + 1, map[c := m + 2]) && Has(b, m + 2, map[c := 2])
  }

  lemma ExtendedHas(t: Build, r: Build)
    requires Formed(t) && Numbered(t.nodes, t.nextId) && |t.path| <= |t.word| && r == Extended(t)
    ensures r.path == t.path + [t.nextId] && r.word == t.word && r.minimized == t.minimized && r.nextId == t.nextId + 1
    ensures Has(r, t.nextId, map[])
    ensures forall q | q in t.nodes && q != t.path[|t.path| - 1] :: q in r.nodes && r.nodes[q] == t.nodes[q]
    ensures var x, a := t.path[|t.path| - 1], t.word[|t.path| - 1];
            x in r.nodes && r.nodes[x] == Node(t.nodes[x].final, t.nodes[x].edges[a := t.nextId])
  {
  }

  ghost predicate SecondOpen(y: Build, c: CodeUnit, d: CodeUnit)
    requires IsDigit(d)
  {
    var m := Top(d);
    && Based(y, c, m) && y.path == [1, m + 1, m + 2] && y.word == Second(c, d) && Short(y.minimized, 5)
    && Has(y, 1, map[c := 2, d := m + 1]) && Has(y, m + 1, map[c := m + 2]) && Has(y, m + 2, map[])
  }

  lemma SecondStarts(b: Build, t: Build, c: CodeUnit, d: CodeUnit)
    requires IsDigit(d) && c < d && AfterFirst(b, c, d) && t == Turned(b, Second(c, d))
    ensures Formed(t) && |t.path| == 1 && |t.word| > 3
    ensures var x, m := Extended(t), Top(d);
            && Spelled(t) == Spelled(x)
            && Based(x, c, m) && x.path == [1, m + 1] && x.word == Second(c, d) && x.minimized == b.minimized
            && Has(x, 1, map[c := 2, d := m + 1]) && Has(x, m + 1, map[]) && x.nextId == m + 2
  {
    hide Chained, Apart, Numbered, Spelled, Short;
    var m, x := Top(d), Extended(t);
    TurnedBased(b, c, m, Second(c, d));
    assert t.path == b.path && t.nodes == b.nodes && t.nextId == b.nextId && t.word == Second(c, d)
        && t.minimized == b.minimized;
    ExtendedBased(t, c, m);
    ExtendedHas(t, x);
    hide Turned, Extended, Based, Top;
    assert x.path == [1, m + 1];
  }

  lemma SecondOpens(b: Build, t: Build, c: CodeUnit, d: CodeUnit) returns (y: Build)
    requires IsDigit(d) && c < d && AfterFirst(b, c, d) && t == Turned(b, Second(c, d))
    ensures Formed(t) && |t.path| == 1 && |t.word| > 3
    ensures SecondOpen(y, c, d) && Formed(y) && |y.path| == 3 && Spelled(t) == Spelled(y)
  {
    hide Chained, Apart, Numbered, Spelled, Short, Based, Extended;
    var m, x := Top(d), Extended(t);
    SecondStarts(b, t, c, d);
    BasedFacts(x, c, m);
    ExtendedBased(x, c, m);
    y := Extended(x);
    ExtendedHas(x, y);
    BasedFacts(y, c, m);
    var e: map<CodeUnit, nat> := map[];
    assert e[c := m + 2] == map[c := m + 2];
    assert y.path == [1, m + 1, m + 2];
  }

  lemma SecondBack(y: Build, c: CodeUnit, d: CodeUnit)
    requires IsDigit(d) && c < d && SecondOpen(y, c, d)
    ensures Formed(y) && AfterSecond(BranchAndBack(y), c, d)
  {
    hide Based, BranchAndBack;
    BranchBack(y, c, Top(d));
    var e: map<CodeUnit, nat> := map[];
    assert e[c := 2] == map[c := 2];
  }

  lemma SecondStep(b: Build, c: CodeUnit, d: CodeUnit)
    requires IsDigit(d) && c < d && AfterFirst(b, c, d)
    ensures AfterSecond(Next(b, Second(c, d), 2), c, d)
  {
    var t := Turned(b, Second(c, d));
    var y := SecondOpens(b, t, c, d);
    SecondBack(y, c, d);
    hide AfterFirst, AfterSecond, SecondOpen, Spelled, Marked, ClosedTo, Turned;
    assert Next(b, Second(c, d), 2) == BranchAndBack(y);
  }

  function MidEdges(c: CodeUnit, d: CodeUnit): map<CodeUnit, nat>
    requires IsDigit(d)
  {
    map[c := 2, d := Mid(d)]
  }

  function MidText(c: CodeUnit, d: CodeUnit): Word
    requires IsDigit(d)
  {
    Signature(Node(false, MidEdges(c, d)))
  }

  ghost predicate AfterThird(b: Build, c: CodeUnit, d: CodeUnit)
    requires IsDigit(d)
  {
    var m := Top(d);
    && Based(b, c, m) && b.path == [1, m + 1] && Short(b.minimized, 7)
    && Has(b, 1, map[c := 2, d := m + 1]) && Has(b, m + 1, map[c := m + 2]) && Has(b, m + 2, MidEdges(c, d))
    && MidText(c, d) in b.minimized && b.minimized[MidText(c, d)] == m + 2
  }

  lemma TwoEdgesSize(c: CodeUnit, p: nat, d: CodeUnit, q: nat)
    requires c < d && p < 1000 && q < 1000
    ensures |Signature(Node(false, map[c := p, d := q]))| == 3 + |Decimal(p)| + |Decimal(q)|
  {
    hide Signature, Decimal;
    TwoEdges(false, c, p, d, q);
  }

  lemma MidTextSize(c: CodeUnit, d: CodeUnit)
    requires IsDigit(d) && c < d
    ensures |MidText(c, d)| == 7
  {
    TwoEdgesSize(c, 2, d, Mid(d));
    DecimalSize(2);
    DecimalSize(Mid(d));
    hide Signature, Decimal;
  }

  ghost predicate ThirdClosed(b: Build, c: CodeUnit, d: CodeUnit)
    requires IsDigit(d)
  {
    var m := Top(d);
    && Based(b, c, m) && b.path == [1, m + 1, m + 2] && Short(b.minimized, 5)
    && Has(b, 1, map[c := 2, d := m + 1]) && Has(b, m + 1, map[c := m + 2]) && Has(b, m + 2, MidEdges(c, d))
  }

  lemma ThirdBack(b: Build, t: Build, c: CodeUnit, d: CodeUnit)
    requires IsDigit(d) && c < d && AfterSecond(b, c, d) && t == Turned(b, Third(c, d))
    ensures ThirdClosed(BranchAndBack(t), c, d)
  {
    hide Chained, Apart, Numbered, Spelled, ClosedTo;
    var m, w := Top(d), Third(c, d);
    TurnedBased(b, c, m, w);
    assert t.path == b.path && t.nodes == b.nodes && t.word == w && t.minimized == b.minimized;
    hide Turned, Based, BranchAndBack;
    BranchBack(t, c, m);
  }

  lemma MidClosed(r: Build, c: CodeUnit, d: CodeUnit)
    requires IsDigit(d) && c < d && ThirdClosed(r, c, d)
    ensures Formed(r) && |r.path| == 3 && AfterThird(ClosedLast(r), c, d)
  {
    hide Chained, Apart, Numbered, Signature;
    MidTextSize(c, d);
    assert MidText(c, d) !in r.minimized;
    Keep(r);
    KeepBased(r, c, Top(d));
    hide ClosedLast, Based;
  }

  lemma ThirdStep(b: Build, c: CodeUnit, d: CodeUnit)
    requires IsDigit(d) && c < d && AfterSecond(b, c, d)
    ensures AfterThird(Next(b, Third(c, d), 1), c, d)
  {
    var t := Turned(b, Third(c, d));
    ThirdBack(b, t, c, d);
    MidClosed(BranchAndBack(t), c, d);
    assert Formed(t) && |t.path| == 3;
    hide AfterThird, AfterSecond, ThirdClosed, Spelled, Marked, ClosedTo, ClosedLast, Turned;
    ClosedToVia(Marked(Spelled(t)), 2, 1);
    ClosedToStep(BranchAndBack(t), 1);
  }

  ghost predicate AfterLost(b: Build, c: CodeUnit, d: CodeUnit, q: nat)
    requires IsDigit(d)
  {
    var m := Top(d);
    && Based(b, c, m) && q > m + 2 && b.path == [1, m + 1, q] && Short(b.minimized, 7)
    && Has(b, 1, map[c := 2, d := m + 1]) && Has(b, m + 1, map[c := m + 2, d := q])
    && Has(b, m + 2, MidEdges(c, d)) && Has(b, q, map[c := m])
    && MidText(c, d) in b.minimized && b.minimized[MidText(c, d)] == m + 2
  }

  ghost predicate LostOpen(x: Build, c: CodeUnit, d: CodeUnit, q: nat)
    requires IsDigit(d)
  {
    var m := Top(d);
    && Based(x, c, m) && q > m + 2 && x.path == [1, m + 1, q] && x.word == Lost(c, d) && Short(x.minimized, 7)
    && Has(x, 1, map[c := 2, d := m + 1]) && Has(x, m + 1, map[c := m + 2, d := q])
    && Has(x, m + 2, MidEdges(c, d)) && Has(x, q, map[])
    && MidText(c, d) in x.minimized && x.minimized[MidText(c, d)] == m + 2
  }

  lemma LostStarts(b: Build, t: Build, c: CodeUnit, d: CodeUnit)
    requires IsDigit(d) && c < d && AfterThird(b, c, d) && t == Turned(b, Lost(c, d))
    ensures Formed(t) && t.path == b.path && |t.word| == 3 && b.nextId > Top(d) + 2 && Numbered(t.nodes, t.nextId)
    ensures t.nodes == b.nodes && t.nextId == b.nextId && t.word == Lost(c, d) && t.minimized == b.minimized
    ensures Based(Extended(t), c, Top(d)) && Spelled(t) == Spelled(Extended(t))
  {
    assert b.nextId > Top(d) + 2;
    hide Chained, Apart, Spelled, MidEdges, MidText, Short, Extended;
    TurnedBased(b, c, Top(d), Lost(c, d));
    ExtendedBased(t, c, Top(d));
  }

  lemma LostOpens(b: Build, t: Build, c: CodeUnit, d: CodeUnit)
    requires IsDigit(d) && c < d && AfterThird(b, c, d) && t == Turned(b, Lost(c, d))
    ensures Formed(t) && |t.path| == 2 && |t.word| == 3
    ensures LostOpen(Extended(t), c, d, b.nextId) && Spelled(t) == Spelled(Extended(t))
  {
    hide Based, Numbered, Spelled, MidEdges, MidText, Turned, Short, Extended, Top, Formed;
    LostStarts(b, t, c, d);
    ExtendedHas(t, Extended(t));
    assert Extended(t).path == [1, Top(d) + 1, b.nextId];
  }

  lemma LostBack(x: Build, c: CodeUnit, d: CodeUnit, q: nat)
    requires IsDigit(d) && c < d && LostOpen(x, c, d, q)
    ensures Formed(x) && AfterLost(BranchAndBack(x), c, d, q)
  {
    hide Based, MidEdges, MidText, BranchAndBack;
    var m := Top(d);
    BranchBack(x, c, m);
    var e: map<CodeUnit, nat> := map[];
    assert e[c := m] == map[c := m];
  }

  lemma LostStep(b: Build, c: CodeUnit, d: CodeUnit)
    requires IsDigit(d) && c < d && AfterThird(b, c, d)
    ensures AfterLost(Next(b, Lost(c, d), 2), c, d, b.nextId)
  {
    var t := Turned(b, Lost(c, d));
    LostOpens(b, t, c, d);
    LostBack(Extended(t), c, d, b.nextId);
    assert |Extended(t).path| == 3;
    hide AfterThird, AfterLost, LostOpen, Spelled, Marked, ClosedTo, Extended, Turned;
    assert Next(b, Lost(c, d), 2) == BranchAndBack(Extended(t));
  }

  /** The two nodes that read alike. */
  lemma AlikeTexts(c: CodeUnit, d: CodeUnit)
    requires IsDigit(d) && c < d
    ensures Signature(Node(false, map[c := Top(d), d := 3])) == MidText(c, d)
  {
    hide Signature, Decimal;
    TwoEdges(false, c, Top(d), d, 3);
    TwoEdges(false, c, 2, d, Mid(d));
    DecimalAround(2, d, 1);
    DecimalAround(1, d, 3);
    hide Top, Mid, Around;
  }

  ghost predicate FifthClosed(r: Build, c: CodeUnit, d: CodeUnit, q: nat)
    requires IsDigit(d)
  {
    var m := Top(d);
    && Formed(r) && q > m + 2 && r.path == [1, m + 1, q] && r.word == Fifth(c, d) && Short(r.minimized, 7)
    && Has(r, 1, map[c := 2, d := m + 1]) && Has(r, m + 1, map[c := m + 2, d := q])
    && Has(r, m + 2, MidEdges(c, d)) && Has(r, q, map[c := m, d := 3]) && Has(r, 2, map[c := 3])
    && MidText(c, d) in r.minimized && r.minimized[MidText(c, d)] == m + 2
  }

  lemma FifthBack(b: Build, t: Build, c: CodeUnit, d: CodeUnit, q: nat)
    requires IsDigit(d) && c < d && AfterLost(b, c, d, q) && t == Turned(b, Fifth(c, d))
    ensures FifthClosed(BranchAndBack(t), c, d, q)
  {
    hide Chained, Apart, Numbered, Spelled, ClosedTo, MidEdges, MidText, Based;
    var m, w := Top(d), Fifth(c, d);
    BasedFacts(b, c, m);
    TurnedBased(b, c, m, w);
    assert t.path == b.path && t.nodes == b.nodes && t.word == w && t.minimized == b.minimized;
    hide Turned, BranchAndBack;
    BranchBack(t, c, m);
    BasedFacts(BranchAndBack(t), c, m);
    SecondNode(BranchAndBack(t), c, m);
  }

  lemma SecondNode(b: Build, c: CodeUnit, m: nat)
    requires Based(b, c, m) && m > 2
    ensures Has(b, 2, map[c := 3])
  {
    assert b.nodes[2] == ChainNode(c, m, 2);
  }

  /** The end: two edges of node Top + 1 lead to one node. */
  ghost predicate Merged(g: Graph, c: CodeUnit, d: CodeUnit)
    requires IsDigit(d)
  {
    var m := Top(d);
    && 1 in g && g[1] == Node(false, map[c := 2, d := m + 1])
    && m + 1 in g && g[m + 1] == Node(false, map[c := m + 2, d := m + 2])
    && m + 2 in g && g[m + 2] == Node(false, MidEdges(c, d))
    && 2 in g && !g[2].final
  }

  lemma MergeStep(r: Build, c: CodeUnit, d: CodeUnit, q: nat)
    requires IsDigit(d) && c < d && FifthClosed(r, c, d, q)
    ensures Formed(r) && |r.path| == 3
    ensures var s := ClosedLast(r);
            Formed(s) && s.path == [1, Top(d) + 1] && Short(s.minimized, 7) && Merged(s.nodes, c, d)
  {
    hide Signature, MidEdges, MidText, ClosedLast;
    AlikeTexts(c, d);
    var m := Top(d);
    assert Signature(r.nodes[r.path[2]]) == MidText(c, d);
    Merge(r);
    assert map[c := m + 2, d := q][d := m + 2] == map[c := m + 2, d := m + 2];
    hide Top;
  }

  lemma FifthStep(b: Build, c: CodeUnit, d: CodeUnit, q: nat)
    requires IsDigit(d) && c < d && AfterLost(b, c, d, q)
    ensures Merged(Next(b, Fifth(c, d), 0).nodes, c, d)
  {
    var m, t := Top(d), Turned(b, Fifth(c, d));
    var r := BranchAndBack(t);
    FifthBack(b, t, c, d, q);
    assert Formed(t) && |t.path| == 3 && |t.word| >= 3;
    MergeStep(r, c, d, q);
    hide AfterLost, FifthClosed, Spelled, Signature, Marked, Turned, ClosedLast, ClosedTo, Merged, Short;
    ClosedToVia(Marked(Spelled(t)), 2, 0);
    ClosedToStep(r, 0);
    var s := ClosedLast(r);
    ClosedToStep(s, 0);
    TwoEdgesSize(c, m + 2, d, m + 2);
    DecimalSize(m + 2);
    LastIsNew(s, c, d);
  }

  lemma LastIsNew(s: Build, c: CodeUnit, d: CodeUnit)
    requires IsDigit(d) && Formed(s) && s.path == [1, Top(d) + 1] && Short(s.minimized, 7) && Merged(s.nodes, c, d)
    requires |Signature(Node(false, map[c := Top(d) + 2, d := Top(d) + 2]))| == 9
    ensures ClosedLast(s).nodes == s.nodes
  {
    hide Signature;
    Keep(s);
  }

  // -------------------------------------------------------------- the outcome

  lemma CommonIs(a: Word, b: Word, n: nat)
    requires PartAt(a, b, n)
    ensures Common(a, b) == n
  {
    CommonIsPart(a, b);
    var k := Common(a, b);
    hide Common;
    if k < n { SameAt(a, b, n, k); }
    if n < k { SameAt(a, b, k, n); }
  }

  lemma SameAt(a: Word, b: Word, n: nat, i: nat)
    requires i < n <= |a| && n <= |b| && a[..n] == b[..n]
    ensures a[i] == b[i]
  {
    assert a[i] == a[..n][i] && b[i] == b[..n][i];
  }

  lemma Turns(c: CodeUnit, d: CodeUnit)
    requires IsDigit(d) && c < d
    ensures Common(Second(c, d), First(c, d)) == 0 && !Less(Second(c, d), First(c, d))
    ensures Common(Third(c, d), Second(c, d)) == 2 && !Less(Third(c, d), Second(c, d))
    ensures Common(Lost(c, d), Third(c, d)) == 1 && !Less(Lost(c, d), Third(c, d))
    ensures Common(Fifth(c, d), Lost(c, d)) == 2 && !Less(Fifth(c, d), Lost(c, d))
  {
    hide Less, Common;
    Turn(Second(c, d), First(c, d), 0);
    Turn(Third(c, d), Second(c, d), 2);
    Turn(Lost(c, d), Third(c, d), 1);
    Turn(Fifth(c, d), Lost(c, d), 2);
  }

  lemma Turn(a: Word, b: Word, n: nat)
    requires n < |a| && n < |b| && a[n] > b[n] && forall i | 0 <= i < n :: a[i] == b[i]
    ensures Common(a, b) == n && !Less(a, b)
  {
    assert a[..n] == b[..n];
    CommonIs(a, b, n);
    LessAt(a, b, n);
  }

  lemma BadWordsSorted(c: CodeUnit, d: CodeUnit)
    requires IsDigit(d) && c < d
    ensures Sorted(BadWords(c, d))
  {
    Turns(c, d);
    hide Less, First, Second, Third, Lost, Fifth;
  }

  lemma AddedThenClosed(b: Build, e: Word, n: nat)
    requires Formed(b) && |b.path| == |b.word| + 1 && n <= |e|
    ensures ClosedTo(Added(b, e), n) == Next(ClosedTo(b, Common(e, b.word)), e, n)
  {
    hide ClosedTo, Common, Spelled, Turned, Marked;
  }

  lemma FirstIs(c: CodeUnit, d: CodeUnit)
    requires IsDigit(d)
    ensures First(c, d) == Repeat(c, Top(d) - 1)
  {
  }

  /** The builder after the first k words, closed down to n. */
  function AfterWords(ws: seq<Word>, k: nat, n: nat): Build
    requires k <= |ws|
  {
    var b := AddedAll(ws[..k], 1);
    if n < |b.path| then ClosedTo(b, n) else b
  }

  lemma WordsNext(ws: seq<Word>, k: nat, n: nat)
    requires 0 < k < |ws| && n <= |ws[k]|
    ensures AfterWords(ws, k + 1, n) == Next(AfterWords(ws, k, Common(ws[k], ws[k - 1])), ws[k], n)
  {
    AddedNext(ws, 1, k);
    hide ClosedTo, Added, Next, Common, AddedAll;
    AddedThenClosed(AddedAll(ws[..k], 1), ws[k], n);
  }

  lemma FirstSpelled(w: Word)
    ensures AddedAll([w], 1) == Marked(Spelled(Turned(Started(1), w)))
  {
    assert [w][..1] == [w] && [w][..0] == [];
    AddedNext([w], 1, 0);
    assert ClosedTo(Started(1), Common(w, [])) == Started(1);
    assert AddedAll([], 1) == Started(1);
    hide Spelled, Turned, Marked;
  }

  lemma FirstAdded(c: CodeUnit, d: CodeUnit)
    requires IsDigit(d)
    ensures AfterFirst(AfterWords(BadWords(c, d), 1, 0), c, d)
  {
    var m, w := Top(d), First(c, d);
    assert BadWords(c, d)[..1] == [w];
    FirstSpelled(w);
    FirstIs(c, d);
    hide First, Spelled, Turned, Marked, BadWords, ClosedTo, AddedAll, Registering, Based;
    FirstOpen(c, m);
    RegisterAll(AddedAll([w], 1), c, m, m);
    RegisteredBase(ClosedTo(AddedAll([w], 1), 0), c, m);
  }

  lemma SecondAdded(c: CodeUnit, d: CodeUnit)
    requires IsDigit(d) && c < d
    ensures AfterSecond(AfterWords(BadWords(c, d), 2, 2), c, d)
  {
    hide AfterWords, AfterFirst, AfterSecond, Next, First, Second, Third, Lost, Fifth;
    Turns(c, d);
    Sizes(c, d);
    FirstAdded(c, d);
    WordsNext(BadWords(c, d), 1, 2);
    SecondStep(AfterWords(BadWords(c, d), 1, 0), c, d);
  }

  lemma ThirdAdded(c: CodeUnit, d: CodeUnit)
    requires IsDigit(d) && c < d
    ensures AfterThird(AfterWords(BadWords(c, d), 3, 1), c, d)
  {
    hide AfterWords, AfterSecond, AfterThird, Next, First, Second, Third, Lost, Fifth;
    Turns(c, d);
    Sizes(c, d);
    SecondAdded(c, d);
    WordsNext(BadWords(c, d), 2, 1);
    ThirdStep(AfterWords(BadWords(c, d), 2, 2), c, d);
  }

  lemma LostAdded(c: CodeUnit, d: CodeUnit) returns (q: nat)
    requires IsDigit(d) && c < d
    ensures AfterLost(AfterWords(BadWords(c, d), 4, 2), c, d, q)
  {
    hide AfterWords, AfterThird, AfterLost, Next, First, Second, Third, Lost, Fifth;
    Turns(c, d);
    Sizes(c, d);
    ThirdAdded(c, d);
    WordsNext(BadWords(c, d), 3, 2);
    q := AfterWords(BadWords(c, d), 3, 1).nextId;
    LostStep(AfterWords(BadWords(c, d), 3, 1), c, d);
  }

  /** What becomes of the bad words. */
  lemma BadBuilt(c: CodeUnit, d: CodeUnit)
    requires IsDigit(d) && c < d
    ensures Merged(Built(BadWords(c, d), 1).nodes, c, d)
  {
    BuiltIs(BadWords(c, d));
    hide AfterWords, AfterLost, Merged, Next, First, Second, Third, Lost, Fifth, Built;
    Turns(c, d);
    Sizes(c, d);
    var q := LostAdded(c, d);
    WordsNext(BadWords(c, d), 4, 0);
    FifthStep(AfterWords(BadWords(c, d), 4, 2), c, d, q);
  }

  lemma BuiltIs(ws: seq<Word>)
    ensures Built(ws, 1) == AfterWords(ws, |ws|, 0)
  {
    hide ClosedTo, AddedAll;
    assert ws[..|ws|] == ws;
  }

  lemma Sizes(c: CodeUnit, d: CodeUnit)
    requires IsDigit(d)
    ensures |Second(c, d)| >= 3 && |Third(c, d)| >= 3 && |Lost(c, d)| == 3 && |Fifth(c, d)| >= 3
  {
  }

  lemma MergedRejects(g: Graph, c: CodeUnit, d: CodeUnit)
    requires IsDigit(d) && c < d && Merged(g, c, d)
    ensures !Accepts(g, 1, Lost(c, d))
  {
    hide Accepts, Top;
    assert Lost(c, d) == [d] + ([d] + ([c] + []));
    AcceptsCons(g, 1, d, [d] + ([c] + []));
    AcceptsCons(g, Top(d) + 1, d, [c] + []);
    AcceptsCons(g, Top(d) + 2, c, []);
    NotFinal(g, 2);
  }

  lemma NotFinal(g: Graph, q: nat)
    requires q in g && !g[q].final
    ensures !Accepts(g, q, [])
  {
  }

  /** The fourth word cannot be found. */
  lemma WordIsLost(c: CodeUnit, d: CodeUnit)
    requires IsDigit(d) && c < d
    ensures Sorted(BadWords(c, d)) && Letters(BadWords(c, d)) <= {c, d}
    ensures Lost(c, d) in BadWords(c, d) && !Accepts(Built(BadWords(c, d), 1).nodes, 1, Lost(c, d))
  {
    assert BadWords(c, d)[3] == Lost(c, d);
    hide Accepts, Built, BadWords, Letters, Sorted, Lost, Merged;
    BadWordsSorted(c, d);
    BadBuilt(c, d);
    BadLetters(c, d);
    MergedRejects(Built(BadWords(c, d), 1).nodes, c, d);
  }

  lemma {:induction false} LettersWithin(ws: seq<Word>, a: Alphabet)
    requires forall w | w in ws :: Chars(w) <= a
    ensures Letters(ws) <= a
  {
    if ws != [] { LettersWithin(ws[..|ws| - 1], a); }
  }

  lemma BadLetters(c: CodeUnit, d: CodeUnit)
    requires IsDigit(d)
    ensures Letters(BadWords(c, d)) <= {c, d}
  {
    forall w | w in BadWords(c, d) ensures Chars(w) <= {c, d} {
      forall i | 0 <= i < |w| ensures w[i] == c || w[i] == d { }
    }
    LettersWithin(BadWords(c, d), {c, d});
  }

  /** Whatever words over the alphabet are added in order, and wherever the numbering starts. */
  ghost predicate AlwaysKnows(a: Alphabet) {
    forall ws, firstId | Sorted(ws) && Letters(ws) <= a :: Knows(ws, firstId)
  }

  lemma FewerUnambiguous(a: Alphabet, b: Alphabet)
    requires Unambiguous(a) && b <= a
    ensures Unambiguous(b)
  {
  }

  /** The builder is right on all word lists over an alphabet exactly if no digit of the alphabet has a
      smaller character in it. */
  lemma AlwaysKnowsExactly(a: Alphabet)
    ensures AlwaysKnows(a) <==> Unambiguous(a)
  {
    hide Accepts, Built, BadWords, Letters, Sorted, Unambiguous, Minimal, Closed, Shallow;
    if Unambiguous(a) {
      forall ws, firstId | Sorted(ws) && Letters(ws) <= a ensures Knows(ws, firstId) {
        FewerUnambiguous(a, Letters(ws));
        BuiltRight(ws, firstId);
      }
    } else {
      var d, c := AmbiguousPair(a);
      WordIsLost(c, d);
      assert !Knows(BadWords(c, d), 1);
    }
  }
}
