/** Which label sets of the sink share a stream key when some labels are configured
    (gateway/pkg/sink/loki/loki.go:248-275): the sink forms just the sets that have every configured label. */
module LokiConfigured {
  import opened GoStrings
  import opened LokiKeys
  import opened LokiLabels

  // ------------------------------------------------------------------ texts

  /** Every pair with a comma in front. */
  function Commas(ps: seq<Pair>): string {
    if ps == [] then "" else [','] + ps[0].0 + ['='] + ps[0].1 + Commas(ps[1..])
  }

  ghost function Listed(a: Labels): string { Commas(PairsOf(a)) }

  lemma {:induction false} CommasJoin(ps: seq<Pair>, qs: seq<Pair>)
    ensures Commas(ps + qs) == Commas(ps) + Commas(qs)
  {
    if ps == [] {
      assert ps + qs == qs;
    } else {
      CommasJoin(ps[1..], qs);
      assert (ps + qs)[1..] == ps[1..] + qs;
    }
  }

  lemma {:induction false} CommasIsText(ps: seq<Pair>)
    requires ps != []
    ensures Commas(ps) == [','] + TextOf(ps)
  {
    if |ps| > 1 {
      CommasIsText(ps[1..]);
      assert [','] + ps[0].0 + ['='] + ps[0].1 + ([','] + (ps[1].0 + ['='] + TextBehind(ps[1..])))
          == [','] + (ps[0].0 + ['='] + (ps[0].1 + [','] + ps[1].0 + ['='] + TextBehind(ps[1..])));
    } else {
      assert ps[1..] == [];
    }
  }

  lemma NonePaired(a: Labels)
    ensures PairsOf(a) == [] <==> a == map[]
  {
    hide SortKeys, Ascending;
    PairsAscend(a);
    PairsOfFacts(a);
    if a != map[] {
      assert a.Keys != {};
      var k :| k in a;
    }
  }

  /** Two stream keys are equal exactly if the lists are. */
  lemma ListedTells(a: Labels, b: Labels)
    ensures KeyText(a) == KeyText(b) <==> Listed(a) == Listed(b)
  {
    ListedIs(a);
    ListedIs(b);
    hide KeyText, Listed;
    if Listed(a) == Listed(b) && a != map[] { assert KeyText(a) == Listed(a)[1..] && KeyText(b) == Listed(b)[1..]; }
  }

  lemma ListedIs(a: Labels)
    ensures if a == map[] then Listed(a) == "" && KeyText(a) == ""
            else Listed(a) == [','] + KeyText(a) && KeyText(a) != ""
  {
    hide KeyText;
    KeyTextIs(a);
    NonePaired(a);
    if a != map[] { CommasIsText(PairsOf(a)); }
  }

  // ------------------------------------------------------------------- maps

  ghost predicate AllLess(a: Labels, b: Labels) { forall k, l | k in a && l in b :: Less(k, l) }

  lemma {:induction false} MapOfJoin(ps: seq<Pair>, qs: seq<Pair>)
    ensures MapOf(ps + qs) == MapOf(ps) + MapOf(qs)
  {
    if qs == [] {
      assert ps + qs == ps;
    } else {
      var n := |qs| - 1;
      MapOfJoin(ps, qs[..n]);
      assert (ps + qs)[..|ps| + n] == ps + qs[..n] && (ps + qs)[|ps| + n] == qs[n];
    }
  }

  lemma AscendingJoin(a: Labels, b: Labels)
    requires AllLess(a, b)
    ensures Ascending(KeysOf(PairsOf(a) + PairsOf(b)))
  {
    PairsOfFacts(a);
    PairsOfFacts(b);
    var ps, qs := PairsOf(a), PairsOf(b);
    hide SortKeys, Less;
    var keys := KeysOf(ps + qs);
    forall i, j | 0 <= i < j < |keys| ensures Less(keys[i], keys[j]) {
      if j < |ps| {
        assert Less(KeysOf(ps)[i], KeysOf(ps)[j]);
      } else if i >= |ps| {
        assert Less(KeysOf(qs)[i - |ps|], KeysOf(qs)[j - |ps|]);
      } else {
        assert ps[i].0 in a && qs[j - |ps|].0 in b;
      }
    }
  }

  lemma ListedJoin(a: Labels, b: Labels)
    requires AllLess(a, b)
    ensures Listed(a + b) == Listed(a) + Listed(b)
  {
    AscendingJoin(a, b);
    PairsOfFacts(a);
    PairsOfFacts(b);
    hide SortKeys, Ascending;
    MapOfJoin(PairsOf(a), PairsOf(b));
    PairsOfMap(PairsOf(a) + PairsOf(b));
    CommasJoin(PairsOf(a), PairsOf(b));
  }

  function Item(k: string, v: string): string { [','] + k + ['='] + v }

  lemma ListedOne(k: string, v: string)
    ensures Listed(map[k := v]) == Item(k, v)
  {
    var a: Labels := map[k := v];
    SortOne(k);
    assert a.Keys == {k};
    hide SortKeys;
    assert PairsOf(a) == [(k, v)];
    assert [(k, v)][1..] == [] && Commas([]) == "";
  }

  function Before(a: Labels, j: string): Labels { map k | k in a && Less(k, j) :: a[k] }

  function Behind(a: Labels, j: string): Labels { map k | k in a && Less(j, k) :: a[k] }

  function From(a: Labels, j: string): Labels { map k | k in a && !Less(k, j) :: a[k] }

  function Between(a: Labels, j: string, k: string): Labels { map l | l in a && Less(j, l) && Less(l, k) :: a[l] }

  function UpTo(a: Labels, j: string, k: string): Labels { map l | l in a && Less(j, l) && !Less(k, l) :: a[l] }

  lemma SplitBefore(a: Labels, j: string)
    ensures Listed(a) == Listed(Before(a, j)) + Listed(From(a, j))
  {
    hide Less, Listed;
    var b, c := Before(a, j), From(a, j);
    forall k, l | k in b && l in c ensures Less(k, l) {
      LessTotal(l, j);
      if l != j { LessTransitive(k, j, l); }
    }
    ListedJoin(b, c);
    assert b + c == a;
  }

  lemma SplitFrom(a: Labels, j: string)
    requires j in a
    ensures Listed(From(a, j)) == Item(j, a[j]) + Listed(Behind(a, j))
  {
    hide Less, Listed;
    var b, c: Labels := map[j := a[j]], Behind(a, j);
    ListedJoin(b, c);
    ListedOne(j, a[j]);
    forall k ensures k in b + c <==> k in From(a, j) { LessTotal(k, j); }
    assert b + c == From(a, j);
  }

  lemma SplitBehind(a: Labels, j: string, k: string)
    requires Less(j, k)
    ensures Listed(Behind(a, j)) == Listed(UpTo(a, j, k)) + Listed(Behind(a, k))
  {
    hide Less, Listed;
    var b, c := UpTo(a, j, k), Behind(a, k);
    forall l, m | l in b && m in c ensures Less(l, m) {
      LessTotal(l, k);
      if l != k { LessTransitive(l, k, m); }
    }
    ListedJoin(b, c);
    forall l ensures l in b + c <==> l in Behind(a, j) {
      if Less(k, l) { LessTransitive(j, k, l); }
    }
    assert b + c == Behind(a, j);
  }

  lemma SplitUpTo(a: Labels, j: string, k: string)
    requires Less(j, k) && k in a
    ensures Listed(UpTo(a, j, k)) == Listed(Between(a, j, k)) + Item(k, a[k])
  {
    hide Less, Listed;
    var b, c: Labels := Between(a, j, k), map[k := a[k]];
    ListedJoin(b, c);
    ListedOne(k, a[k]);
    forall l ensures l in b + c <==> l in UpTo(a, j, k) { LessTotal(l, k); }
    assert b + c == UpTo(a, j, k);
  }

  lemma FirstSplits(a: Labels, m: string)
    requires IsFirst(m, a.Keys)
    ensures Listed(a) == Item(m, a[m]) + Listed(a - {m})
  {
    hide Less, Listed;
    forall k | k in a ensures !Less(k, m) && (k != m ==> Less(m, k)) { LessTotal(k, m); }
    SplitFrom(a, m);
    assert From(a, m) == a && Behind(a, m) == a - {m};
  }

  ghost predicate Within(a: Labels, b: Labels) { forall k | k in a :: k in b && a[k] == b[k] }

  /** More labels make a longer list. */
  lemma {:induction false} ListedGrows(a: Labels, b: Labels)
    requires Within(a, b)
    ensures |Listed(a)| <= |Listed(b)|
    decreases |b|
  {
    hide Listed;
    if b == map[] {
      assert a == b;
    } else {
      assert b.Keys != {};
      FirstExists(b.Keys);
      var m :| IsFirst(m, b.Keys);
      FirstSplits(b, m);
      if m in a {
        assert IsFirst(m, a.Keys);
        FirstSplits(a, m);
        ListedGrows(a - {m}, b - {m});
      } else {
        ListedGrows(a, b - {m});
      }
    }
  }

  // -------------------------------------------------------------- sink sets

  /** The label sets that the sink can form: over the free keys and the configured ones, with every configured
      label as it is. */
  ghost predicate SinkSet(free: set<string>, configured: Labels, a: Labels) {
    a.Keys <= free + configured.Keys && Within(configured, a)
  }

  predicate Apart(free: set<string>, configured: Labels) { free !! configured.Keys && Plain(free + configured.Keys) }

  function FreeKeys(configured: Labels): set<string> { KEY_LABELS - configured.Keys }

  /** These are just the label sets of stream keys. */
  lemma StreamLabelsAreSinkSets(configured: Labels, a: Labels)
    ensures SinkSet(FreeKeys(configured), configured, StreamLabels(a, configured))
    ensures SinkSet(FreeKeys(configured), configured, a) ==> StreamLabels(a, configured) == a
  {
    if SinkSet(FreeKeys(configured), configured, a) {
      forall k ensures k in StreamLabels(a, configured) <==> k in a { }
    }
  }

  lemma FreeKeysApart(configured: Labels)
    requires Plain(configured.Keys)
    ensures Apart(FreeKeys(configured), configured)
  {
  }

  // ------------------------------------------------------------------ marks

  /** What stands between the value of a free key j and that of the next free key k. */
  ghost function Mark(configured: Labels, j: string, k: string): string {
    Listed(Between(configured, j, k)) + [','] + k + ['=']
  }

  /** The mark stands at place p of t. */
  predicate At(mark: string, t: string, p: nat) { p + |mark| <= |t| && t[p..p + |mark|] == mark }

  /** What a stream key shows from the value of j up to k. */
  ghost function Shown(a: Labels, j: string, k: string): string
    requires j in a
  {
    a[j] + Listed(UpTo(a, j, k))
  }

  ghost predicate EndsAt(free: set<string>, configured: Labels, a: Labels, j: string, k: string, p: nat) {
    j in free && j in a && k in free && Less(j, k) && p < |a[j]| && At(Mark(configured, j, k), Shown(a, j, k), p)
  }

  /** A value looks as if it ended before it does. */
  ghost predicate EndsEarly(free: set<string>, configured: Labels, a: Labels) {
    exists j, k, p: nat :: EndsAt(free, configured, a, j, k, p)
  }

  // ---------------------------------------------------------------- partners

  /** The set with the value of j cut off at p, and k and all that is shown behind its mark in its place. */
  ghost function Partner(configured: Labels, a: Labels, j: string, k: string, p: nat): Labels
    requires j in a && p < |a[j]| && At(Mark(configured, j, k), Shown(a, j, k), p)
  {
    Before(a, j) + map[j := Shown(a, j, k)[..p]]
    + (Between(configured, j, k) + map[k := Shown(a, j, k)[p + |Mark(configured, j, k)|..]] + Behind(a, k))
  }

  lemma ListedAround(b: Labels, j: string, v: string, c: Labels)
    requires (forall l | l in b :: Less(l, j)) && (forall m | m in c :: Less(j, m))
    ensures Listed(b + map[j := v] + c) == Listed(b) + Item(j, v) + Listed(c)
  {
    hide Less, Listed;
    var d: Labels := map[j := v];
    ListedJoin(b, d);
    forall l, m | l in b + d && m in c ensures Less(l, m) { if l != j { LessTransitive(l, j, m); } }
    ListedJoin(b + d, c);
    ListedOne(j, v);
  }

  lemma PartnerListed(configured: Labels, a: Labels, j: string, k: string, v: string, w: string)
    requires Less(j, k)
    ensures var c := Between(configured, j, k);
            Listed(Before(a, j) + map[j := v] + (c + map[k := w] + Behind(a, k)))
            == Listed(Before(a, j)) + Item(j, v) + (Listed(c) + Item(k, w) + Listed(Behind(a, k)))
  {
    hide Less, Listed;
    var c := Between(configured, j, k);
    ListedAround(c, k, w, Behind(a, k));
    forall m | m in c + map[k := w] + Behind(a, k) ensures Less(j, m) {
      if m in Behind(a, k) { LessTransitive(j, k, m); }
    }
    ListedAround(Before(a, j), j, v, c + map[k := w] + Behind(a, k));
  }

  /** Cut off at p, with k and the rest behind the mark, the text stays what it was. */
  lemma MarkedText(configured: Labels, j: string, k: string, t: string, p: nat)
    requires At(Mark(configured, j, k), t, p)
    ensures var c, n := Listed(Between(configured, j, k)), |Mark(configured, j, k)|;
            Item(j, t[..p]) + (c + Item(k, t[p + n..])) == [','] + j + ['='] + t
  {
    hide Listed;
    var mark, c := Mark(configured, j, k), Listed(Between(configured, j, k));
    var u, w := t[..p], t[p + |mark|..];
    assert t == u + mark + w;
    assert c + Item(k, w) == mark + w;
    assert Item(j, u) + (mark + w) == [','] + j + ['='] + (u + mark + w);
  }

  lemma Reassembled(l: string, b: string, i: string, c: string, k: string, e: string, a: string)
    requires l == b + i + (c + k + e) && a == b + (i + (c + k) + e)
    ensures l == a
  {
    assert i + (c + k) + e == i + (c + k + e);
  }

  lemma Regroup(j: string, v: string, u: string, e: string)
    ensures Item(j, v) + (u + e) == [','] + j + ['='] + (v + u) + e
  {
  }

  lemma SplitText(a: Labels, j: string, k: string)
    requires j in a && Less(j, k)
    ensures Listed(a) == Listed(Before(a, j)) + ([','] + j + ['='] + Shown(a, j, k) + Listed(Behind(a, k)))
  {
    SplitBefore(a, j);
    SplitFrom(a, j);
    SplitBehind(a, j, k);
    Regroup(j, a[j], Listed(UpTo(a, j, k)), Listed(Behind(a, k)));
    hide Listed, Less, Before, Behind, From, UpTo, Item;
    assert Listed(From(a, j)) == Item(j, a[j]) + (Listed(UpTo(a, j, k)) + Listed(Behind(a, k)));
  }

  lemma PartnerText(configured: Labels, a: Labels, j: string, k: string, p: nat)
    requires j in a && Less(j, k) && p < |a[j]| && At(Mark(configured, j, k), Shown(a, j, k), p)
    ensures Listed(Partner(configured, a, j, k, p)) == Listed(a)
  {
    var t, c := Shown(a, j, k), Between(configured, j, k);
    var w := t[p + |Mark(configured, j, k)|..];
    PartnerListed(configured, a, j, k, t[..p], w);
    MarkedText(configured, j, k, t, p);
    SplitText(a, j, k);
    hide Listed, Less, Before, Behind, Between, Item, Shown, Mark, At;
    Reassembled(Listed(Partner(configured, a, j, k, p)), Listed(Before(a, j)), Item(j, t[..p]), Listed(c), Item(k, w),
      Listed(Behind(a, k)), Listed(a));
  }

  /** A set in which a value looks as if it ended early shares its stream key with another one that the sink can
      form. */
  lemma EarlyEndCollides(free: set<string>, configured: Labels, a: Labels) returns (b: Labels)
    requires Apart(free, configured) && SinkSet(free, configured, a) && EndsEarly(free, configured, a)
    ensures SinkSet(free, configured, b) && b != a && KeyText(b) == KeyText(a)
  {
    hide Listed, KeyText, Less, Plain, Mark, Shown, At;
    var j, k, p: nat :| EndsAt(free, configured, a, j, k, p);
    b := Partner(configured, a, j, k, p);
    PartnerText(configured, a, j, k, p);
    ListedTells(a, b);
    PartnerIsSinkSet(free, configured, a, j, k, p);
  }

  lemma PartnerIsSinkSet(free: set<string>, configured: Labels, a: Labels, j: string, k: string, p: nat)
    requires free !! configured.Keys && SinkSet(free, configured, a) && EndsAt(free, configured, a, j, k, p)
    ensures SinkSet(free, configured, Partner(configured, a, j, k, p)) && Partner(configured, a, j, k, p) != a
  {
    hide Listed, Mark, Less;
    var b := Partner(configured, a, j, k, p);
    forall c | c in configured ensures c in b && b[c] == configured[c] {
      LessTotal(c, j);
      LessTotal(c, k);
      if Less(c, j) { LessTransitive(c, j, k); }
    }
    LessTotal(j, k);
    assert b[j] == Shown(a, j, k)[..p] && |b[j]| < |a[j]|;
  }

  // --------------------------------------------------------------- necessity

  lemma ItemStarts(k: string, v: string, t: string, l: string, w: string, u: string)
    requires Item(k, v) + t == Item(l, w) + u && '=' !in k && '=' !in l
    ensures k == l && v + t == w + u
  {
    var x, y := k + ['='] + (v + t), l + ['='] + (w + u);
    assert Item(k, v) + t == [','] + x && Item(l, w) + u == [','] + y;
    assert x == ([','] + x)[1..] && y == ([','] + y)[1..];
    IndexAt(k, '=', v + t);
    IndexAt(l, '=', w + u);
    assert k == x[..|k|] && l == y[..|k|];
    assert v + t == x[|k| + 1..] && w + u == y[|k| + 1..];
  }

  /** Where two sets with one text first differ, both have the key. */
  lemma FirstDifference(ks: set<string>, a: Labels, b: Labels, j: string)
    requires Plain(ks) && a.Keys <= ks && b.Keys <= ks
    requires j in a && Listed(From(a, j)) == Listed(From(b, j))
    ensures j in b && a[j] + Listed(Behind(a, j)) == b[j] + Listed(Behind(b, j))
  {
    hide Listed, Less;
    SplitFrom(a, j);
    ListedIs(From(b, j));
    hide KeyText;
    assert From(b, j) != map[];
    assert From(b, j).Keys != {};
    FirstExists(From(b, j).Keys);
    var m :| IsFirst(m, From(b, j).Keys);
    FirstSplits(From(b, j), m);
    ItemStarts(j, a[j], Listed(Behind(a, j)), m, b[m], Listed(From(b, j) - {m}));
    SplitFrom(b, j);
    ItemStarts(j, a[j], Listed(Behind(a, j)), j, b[j], Listed(Behind(b, j)));
  }

  /** Behind j the set has configured labels only. */
  lemma NothingFree(free: set<string>, configured: Labels, b: Labels, j: string)
    requires SinkSet(free, configured, b) && forall k | k in b && k in free :: !Less(j, k)
    ensures Behind(b, j) == Behind(configured, j)
  {
    hide Less;
  }

  function FreeBehind(free: set<string>, b: Labels, j: string): set<string> {
    set l | l in b && l in free && Less(j, l)
  }

  /** Between j and the next free key k, too. */
  lemma NothingFreeBetween(free: set<string>, configured: Labels, b: Labels, j: string, k: string)
    requires SinkSet(free, configured, b) && free !! configured.Keys
    requires IsFirst(k, FreeBehind(free, b, j))
    ensures Between(b, j, k) == Between(configured, j, k)
  {
    hide Less;
    forall l | l in Between(b, j, k) ensures l in configured {
      if l in free {
        assert l in FreeBehind(free, b, j);
        LessTotal(l, k);
      }
    }
  }

  lemma NextFree(free: set<string>, configured: Labels, b: Labels, j: string, k: string)
    requires SinkSet(free, configured, b) && free !! configured.Keys
    requires IsFirst(k, FreeBehind(free, b, j))
    ensures Listed(Behind(b, j)) == Mark(configured, j, k) + (b[k] + Listed(Behind(b, k)))
  {
    hide Less, Listed;
    assert k in FreeBehind(free, b, j);
    NothingFreeBetween(free, configured, b, j, k);
    SplitBehind(b, j, k);
    SplitUpTo(b, j, k);
    hide Between, UpTo, Behind;
    var c := Listed(Between(configured, j, k));
    assert Mark(configured, j, k) + (b[k] + Listed(Behind(b, k)))
        == c + Item(k, b[k]) + Listed(Behind(b, k));
  }

  /** What is shown up to k is long enough for the configured pairs of the mark. */
  lemma ShownLength(free: set<string>, configured: Labels, a: Labels, j: string, k: string)
    requires SinkSet(free, configured, a) && j in a
    ensures |a[j]| + |Listed(Between(configured, j, k))| <= |Shown(a, j, k)|
  {
    hide Listed, Less;
    forall l | l in Between(configured, j, k) ensures l in UpTo(a, j, k) && a[l] == configured[l] { LessTotal(l, k); }
    ListedGrows(Between(configured, j, k), UpTo(a, j, k));
  }

  lemma CharAt(mark: string, t: string, p: nat, n: nat)
    requires At(mark, t, p) && p <= n < p + |mark|
    ensures n < |t| && t[n] == mark[n - p]
  {
    assert t[n] == t[p..p + |mark|][n - p];
  }

  lemma AtWithin(mark: string, s: string, e: string, p: nat)
    requires At(mark, s + e, p) && p + |mark| <= |s|
    ensures At(mark, s, p)
  {
    assert (s + e)[p..p + |mark|] == s[p..p + |mark|];
  }

  /** A mark that begins within the value of j and stands in the text of the set ends before the keys behind k. */
  lemma MarkIsShown(free: set<string>, configured: Labels, a: Labels, j: string, k: string, p: nat, t: string)
    requires Apart(free, configured) && SinkSet(free, configured, a) && j in a && k in free && Less(j, k)
    requires p < |a[j]| && t == a[j] + Listed(Behind(a, j)) && At(Mark(configured, j, k), t, p)
    ensures At(Mark(configured, j, k), Shown(a, j, k), p)
  {
    hide Listed, Less, Shown, Mark, At, Plain;
    var mark, s, e := Mark(configured, j, k), Shown(a, j, k), Listed(Behind(a, k));
    ShownAll(a, j, k);
    ShownLength(free, configured, a, j, k);
    if |s| < p + |mark| {
      CharAt(mark, s + e, p, |s|);
      CommaFirst(Behind(a, k));
      MarkTail(free, configured, j, k, |s| - p);
    } else {
      AtWithin(mark, s, e, p);
    }
  }

  lemma ShownAll(a: Labels, j: string, k: string)
    requires j in a && Less(j, k)
    ensures a[j] + Listed(Behind(a, j)) == Shown(a, j, k) + Listed(Behind(a, k))
  {
    SplitBehind(a, j, k);
    hide Listed, Less, Behind, UpTo;
  }

  /** The last key of a mark holds no comma. */
  lemma MarkTail(free: set<string>, configured: Labels, j: string, k: string, q: nat)
    requires Apart(free, configured) && k in free
    requires |Listed(Between(configured, j, k))| < q < |Mark(configured, j, k)|
    ensures Mark(configured, j, k)[q] != ','
  {
    hide Listed, Less;
    var c := Listed(Between(configured, j, k));
    assert Mark(configured, j, k)[q] == (k + ['='])[q - |c| - 1];
  }

  /** Of two sets with one text, the one whose value is longer where they first differ ends early. */
  lemma LongerEndsEarly(free: set<string>, configured: Labels, a: Labels, b: Labels, j: string)
    requires Apart(free, configured) && SinkSet(free, configured, a) && SinkSet(free, configured, b)
    requires j in a && j in b && j in free && |a[j]| > |b[j]|
    requires a[j] + Listed(Behind(a, j)) == b[j] + Listed(Behind(b, j))
    ensures EndsEarly(free, configured, a)
  {
    hide Listed, Less, Plain;
    var t, nexts := a[j] + Listed(Behind(a, j)), FreeBehind(free, b, j);
    if nexts == {} {
      forall k | k in b && k in free ensures !Less(j, k) { assert Less(j, k) ==> k in nexts; }
      NothingFree(free, configured, b, j);
      ListedGrows(Behind(configured, j), Behind(a, j));
    } else {
      FirstExists(nexts);
      var k :| IsFirst(k, nexts);
      NextFree(free, configured, b, j, k);
      var mark, rest := Mark(configured, j, k), b[k] + Listed(Behind(b, k));
      hide Mark, Behind;
      MarkFollows(b[j], mark, rest, t);
      MarkIsShown(free, configured, a, j, k, |b[j]|, t);
      assert EndsAt(free, configured, a, j, k, |b[j]|);
    }
  }

  lemma MarkFollows(v: string, mark: string, rest: string, t: string)
    requires t == v + (mark + rest)
    ensures At(mark, t, |v|)
  {
  }

  /** Of two different sets of the sink with one stream key, a value of one looks as if it ended early. */
  lemma OneEndsEarly(free: set<string>, configured: Labels, a: Labels, b: Labels)
    requires Apart(free, configured) && SinkSet(free, configured, a) && SinkSet(free, configured, b)
    requires a != b && KeyText(a) == KeyText(b)
    ensures EndsEarly(free, configured, a) || EndsEarly(free, configured, b)
  {
    ListedTells(a, b);
    hide Listed, KeyText, Less;
    var differ := set k | k in a.Keys + b.Keys && !(k in a && k in b && a[k] == b[k]);
    assert differ != {} by {
      if differ == {} {
        forall k ensures k in a <==> k in b { if k in a.Keys + b.Keys { assert k !in differ; } }
        forall k | k in a ensures a[k] == b[k] { assert k !in differ; }
      }
    }
    FirstExists(differ);
    var j :| IsFirst(j, differ);
    SameBefore(a, b, j, differ);
    SplitBefore(a, j);
    SplitBefore(b, j);
    SameFront(Listed(Before(a, j)), Listed(From(a, j)), Listed(From(b, j)));
    if j in a {
      FirstDifference(free + configured.Keys, a, b, j);
    } else {
      FirstDifference(free + configured.Keys, b, a, j);
    }
    SameLength(a[j], Listed(Behind(a, j)), b[j], Listed(Behind(b, j)));
    if |a[j]| > |b[j]| {
      LongerEndsEarly(free, configured, a, b, j);
    } else {
      LongerEndsEarly(free, configured, b, a, j);
    }
  }

  lemma SameBefore(a: Labels, b: Labels, j: string, differ: set<string>)
    requires IsFirst(j, differ) && differ == set k | k in a.Keys + b.Keys && !(k in a && k in b && a[k] == b[k])
    ensures Before(a, j) == Before(b, j)
  {
    hide Less;
    forall k | k in a.Keys + b.Keys && Less(k, j) ensures k !in differ {
      LessTotal(k, j);
    }
  }

  lemma SameFront(x: string, y: string, z: string)
    requires x + y == x + z
    ensures y == z
  {
    assert y == (x + y)[|x|..] && z == (x + z)[|x|..];
  }

  lemma SameLength(v: string, t: string, w: string, u: string)
    requires v + t == w + u
    ensures |v| == |w| ==> v == w
  {
    assert |v| == |w| ==> v == (v + t)[..|v|] && w == (w + u)[..|v|];
  }

  // ----------------------------------------------- configured without commas

  ghost predicate NoCommas(configured: Labels) { forall k | k in configured :: ',' !in configured[k] }

  predicate NoPairCommas(ps: seq<Pair>) { forall i | 0 <= i < |ps| :: ',' !in ps[i].0 && ',' !in ps[i].1 }

  function Marked(ps: seq<Pair>, k: string): string {
    if ps == [] then [','] + k + ['='] else Item(ps[0].0, ps[0].1) + Marked(ps[1..], k)
  }

  lemma {:induction false} MarkedIs(ps: seq<Pair>, k: string)
    ensures Marked(ps, k) == Commas(ps) + ([','] + k + ['='])
  {
    if ps != [] { MarkedIs(ps[1..], k); }
  }

  predicate StartsKey(l: string, t: string) { KeyAt(l, t, 0) }

  function FirstKey(ps: seq<Pair>, k: string): string { if ps == [] then k else ps[0].0 }

  lemma ItemStartsKey(k: string, v: string, t: string)
    ensures StartsKey(k, Item(k, v) + t)
  {
    assert (Item(k, v) + t)[1..1 + |k|] == k;
  }

  lemma MarkedStarts(ps: seq<Pair>, k: string)
    ensures StartsKey(FirstKey(ps, k), Marked(ps, k))
  {
    if ps == [] {
      ItemStartsKey(k, "", "");
      hide StartsKey;
      assert Item(k, "") + "" == [','] + k + ['='];
    } else {
      ItemStartsKey(ps[0].0, ps[0].1, Marked(ps[1..], k));
      hide StartsKey;
    }
  }

  lemma NoCommaInside(k: string, v: string, q: nat)
    requires ',' !in k && ',' !in v && 1 <= q < |Item(k, v)|
    ensures Item(k, v)[q] != ','
  {
    assert Item(k, v)[q] == (k + ['='] + v)[q - 1];
  }

  /** What stands behind a comma within a mark: its last key, or that of a pair but the first. */
  lemma {:induction false} CommaStarts(ps: seq<Pair>, k: string, q: nat) returns (l: string)
    requires NoPairCommas(ps) && ',' !in k && 1 <= q < |Marked(ps, k)| && Marked(ps, k)[q] == ','
    ensures ps != [] && StartsKey(l, Marked(ps, k)[q..])
    ensures l == k || exists i :: 0 < i < |ps| && ps[i].0 == l
    decreases |ps|
  {
    var mark := Marked(ps, k);
    if ps == [] {
      NoCommaInside(k, "", q);
      l := k;
    } else {
      var item, rest := Item(ps[0].0, ps[0].1), Marked(ps[1..], k);
      assert mark == item + rest;
      if q < |item| { NoCommaInside(ps[0].0, ps[0].1, q); }
      assert mark[q..] == rest[q - |item|..];
      if q == |item| {
        l := FirstKey(ps[1..], k);
        MarkedStarts(ps[1..], k);
        assert rest[0..] == rest;
        assert |ps| > 1 ==> ps[1].0 == l;
      } else {
        l := CommaStarts(ps[1..], k, q - |item|);
        hide StartsKey;
        if i :| 0 < i < |ps[1..]| && ps[1..][i].0 == l { assert ps[i + 1].0 == l; }
      }
    }
  }

  /** A free value holds the mark of a later free key. */
  ghost predicate HoldsMark(free: set<string>, configured: Labels, a: Labels) {
    exists j, k, p: nat :: j in free && j in a && k in free && Less(j, k) && At(Mark(configured, j, k), a[j], p)
  }

  lemma MarkIsMarked(configured: Labels, j: string, k: string)
    requires Plain(configured.Keys) && NoCommas(configured)
    ensures var ps := PairsOf(Between(configured, j, k));
            Mark(configured, j, k) == Marked(ps, k) && NoPairCommas(ps)
            && Ascending(KeysOf(ps)) && forall i | 0 <= i < |ps| :: ps[i].0 in Between(configured, j, k)
  {
    var c := Between(configured, j, k);
    PairsOfFacts(c);
    MarkedIs(PairsOf(c), k);
    hide SortKeys, Ascending, Less;
    assert forall i | 0 <= i < |PairsOf(c)| :: PairsOf(c)[i].1 == c[PairsOf(c)[i].0];
  }

  /** The key behind a comma within the mark comes after its first one. */
  lemma CommaKeyIsLater(configured: Labels, j: string, k: string, q: nat) returns (c: string, l: string)
    requires Plain(configured.Keys) && NoCommas(configured) && ',' !in k
    requires 1 <= q < |Mark(configured, j, k)| && Mark(configured, j, k)[q] == ','
    ensures c in Between(configured, j, k) && Less(c, l) && (l == k || l in configured)
    ensures StartsKey(l, Mark(configured, j, k)[q..])
  {
    MarkIsMarked(configured, j, k);
    var ps := PairsOf(Between(configured, j, k));
    hide Less, Marked, Mark, KeyAt;
    l := CommaStarts(ps, k, q);
    c := ps[0].0;
    if l != k {
      var i :| 0 < i < |ps| && ps[i].0 == l;
      assert Less(KeysOf(ps)[0], KeysOf(ps)[i]);
    }
  }

  lemma FirstStarts(a: Labels, u: string)
    requires IsFirst(u, a.Keys)
    ensures StartsKey(u, Listed(a))
  {
    FirstSplits(a, u);
    ItemStartsKey(u, a[u], Listed(a - {u}));
    hide Listed, Less, StartsKey, Item;
  }

  lemma Overlap(v: string, t: string, mark: string, p: nat)
    requires At(mark, v + t, p) && p < |v| < p + |mark|
    ensures |v| - p < |mark| && |mark| - (|v| - p) <= |t| && t[..|mark| - (|v| - p)] == mark[|v| - p..]
  {
    assert (v + t)[p..p + |mark|][|v| - p..] == (v + t)[|v|..p + |mark|];
    assert (v + t)[|v|..p + |mark|] == t[..p + |mark| - |v|];
  }

  lemma StartsLonger(l: string, t: string, n: nat)
    requires n <= |t| && StartsKey(l, t[..n])
    ensures StartsKey(l, t)
  {
    KeyWithin(l, t, n, 0);
  }

  /** No mark begins in a value and ends behind it. */
  lemma MarkNotAcross(free: set<string>, configured: Labels, a: Labels, j: string, k: string, p: nat)
    requires Apart(free, configured) && SinkSet(free, configured, a) && NoCommas(configured)
    requires EndsAt(free, configured, a, j, k, p)
    ensures p + |Mark(configured, j, k)| <= |a[j]|
  {
    hide Listed, Less, Mark;
    var v, up, mark := a[j], UpTo(a, j, k), Mark(configured, j, k);
    var t, q := Listed(up), |v| - p;
    if q < |mark| {
      Overlap(v, t, mark, p);
      CommaFirst(up);
      assert t[0] == t[..|mark| - q][0] == mark[q];
      var c, l := CommaKeyIsLater(configured, j, k, q);
      StartsLonger(l, t, |mark| - q);
      hide StartsKey;
      LabelBetween(free, configured, a, j, k, c);
      FirstExists(up.Keys);
      var u :| IsFirst(u, up.Keys);
      FirstStarts(up, u);
      StartsAlike(free + configured.Keys, u, l, t);
      LessTotal(c, l);
      assert false;
    }
  }

  lemma StartsAlike(ks: set<string>, u: string, l: string, t: string)
    requires Plain(ks) && u in ks && l in ks && StartsKey(u, t) && StartsKey(l, t)
    ensures u == l
  {
    KeyAtUnique(u, l, t, 0);
  }

  lemma LabelBetween(free: set<string>, configured: Labels, a: Labels, j: string, k: string, c: string)
    requires SinkSet(free, configured, a) && c in Between(configured, j, k)
    ensures c in UpTo(a, j, k)
  {
    hide Less;
    LessTotal(c, k);
  }

  lemma CommaFirst(a: Labels)
    ensures Listed(a) == "" || Listed(a)[0] == ','
  {
    ListedIs(a);
    hide KeyText, Listed;
  }

  /** Without commas in configured values, a value looks as if it ended early exactly if it holds a mark. */
  lemma EndsEarlyByMark(free: set<string>, configured: Labels, a: Labels)
    requires Apart(free, configured) && SinkSet(free, configured, a) && NoCommas(configured)
    ensures EndsEarly(free, configured, a) <==> HoldsMark(free, configured, a)
  {
    hide Listed, Less, Mark;
    if EndsEarly(free, configured, a) {
      var j, k, p: nat :| EndsAt(free, configured, a, j, k, p);
      MarkNotAcross(free, configured, a, j, k, p);
      var n := p + |Mark(configured, j, k)|;
      assert a[j][p..n] == Shown(a, j, k)[p..n];
      assert At(Mark(configured, j, k), a[j], p);
    }
    if HoldsMark(free, configured, a) {
      var j, k, p: nat :| j in free && j in a && k in free && Less(j, k) && At(Mark(configured, j, k), a[j], p);
      var n := p + |Mark(configured, j, k)|;
      assert a[j][p..n] == Shown(a, j, k)[p..n];
      MarkIsSome(configured, j, k);
      assert EndsAt(free, configured, a, j, k, p);
    }
  }

  lemma MarkIsSome(configured: Labels, j: string, k: string)
    ensures |Mark(configured, j, k)| >= 2
  {
  }

  // ------------------------------------------------- the labels shipped with it

  /** gateway/config.yaml:81-84 */
  const SHIPPED: Labels := map["gateway" := "true", "type" := "processed"]

  lemma GatewayOrder(k: string)
    requires k in FreeKeys(SHIPPED) && Less("env", k)
    ensures Less("env", "gateway") && Less("gateway", k)
  {
    LessTotal("env", "env");
  }

  lemma GatewayBetween(k: string)
    requires k in FreeKeys(SHIPPED) && Less("env", k)
    ensures |Mark(SHIPPED, "env", k)| > 13
  {
    GatewayOrder(k);
    hide Less, Listed;
    var a: Labels := map["gateway" := "true"];
    ListedOne("gateway", "true");
    ListedGrows(a, Between(SHIPPED, "env", k));
  }

  /** A value that looks like two labels is harmless where a configured label belongs between them. */
  lemma ShippedEnvIsSafe()
    ensures !EndsEarly(FreeKeys(SHIPPED), SHIPPED, StreamLabels(map["env" := "a,pod=b"], SHIPPED))
  {
    var a := StreamLabels(map["env" := "a,pod=b"], SHIPPED);
    StreamLabelsAreSinkSets(SHIPPED, map["env" := "a,pod=b"]);
    FreeKeysApart(SHIPPED);
    EndsEarlyByMark(FreeKeys(SHIPPED), SHIPPED, a);
    hide Less, Mark, EndsEarly;
    forall j, k, p: nat | j in FreeKeys(SHIPPED) && j in a && k in FreeKeys(SHIPPED) && Less(j, k)
      ensures !At(Mark(SHIPPED, j, k), a[j], p)
    {
      assert j == "env";
      GatewayBetween(k);
    }
  }
}
