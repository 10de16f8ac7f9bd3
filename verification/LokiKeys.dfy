/** When the text of a stream key tells label sets apart (gateway/pkg/sink/loki/loki.go:262-274). */
module LokiKeys {
  import opened GoStrings
  import opened LokiLabels

  // -------------------------------------------------------------- key order

  predicate Ascending(keys: seq<string>) {
    forall i, j | 0 <= i < j < |keys| :: Less(keys[i], keys[j])
  }

  lemma AscendingFrom(m: string, keys: seq<string>)
    requires Ascending(keys) && forall k | k in keys :: Less(m, k)
    ensures Ascending([m] + keys)
  {
    forall i, j | 0 <= i < j < |keys| + 1 ensures Less(([m] + keys)[i], ([m] + keys)[j]) {
      assert keys[j - 1] in keys;
    }
  }

  lemma FirstOf(m: string, s: set<string>)
    requires IsFirst(m, s)
    ensures m in s && forall k | k in SortKeys(s - {m}) :: Less(m, k)
  {
  }

  lemma {:induction false} SortAscends(s: set<string>)
    ensures Ascending(SortKeys(s))
  {
    if s == {} {
      SortNone();
    } else {
      hide SortKeys, Ascending, IsFirst;
      FirstExists(s);
      var m :| IsFirst(m, s);
      FirstOf(m, s);
      SortFirst(s, m);
      SortAscends(s - {m});
      AscendingFrom(m, SortKeys(s - {m}));
    }
  }

  ghost function Elements(keys: seq<string>): set<string> { set k | k in keys }

  lemma AscendingRest(keys: seq<string>)
    requires Ascending(keys) && keys != []
    ensures Ascending(keys[1..]) && keys[0] !in keys[1..] && forall k | k in keys[1..] :: Less(keys[0], k)
  {
    forall k | k in keys[1..] ensures Less(keys[0], k) && k != keys[0] {
      var i :| 0 <= i < |keys[1..]| && keys[1..][i] == k;
      assert keys[i + 1] == k;
      LessTotal(keys[0], k);
    }
  }

  lemma ElementsRest(keys: seq<string>)
    requires keys != [] && keys[0] !in keys[1..]
    ensures Elements(keys) - {keys[0]} == Elements(keys[1..]) && Elements(keys) == {keys[0]} + Elements(keys[1..])
  {
    assert keys == [keys[0]] + keys[1..];
  }

  lemma {:induction false} AscendingIsSorted(keys: seq<string>)
    requires Ascending(keys)
    ensures SortKeys(Elements(keys)) == keys
  {
    if keys == [] {
      assert Elements(keys) == {};
      SortNone();
    } else {
      hide SortKeys, Ascending;
      AscendingRest(keys);
      ElementsRest(keys);
      SortFirst(Elements(keys), keys[0]);
      AscendingIsSorted(keys[1..]);
      assert keys == [keys[0]] + keys[1..];
    }
  }

  // ------------------------------------------------------------------ texts

  /** Everything behind the first key and its equals sign. */
  function TextBehind(ps: seq<Pair>): string
    requires ps != []
  {
    if |ps| == 1 then ps[0].1 else ps[0].1 + [','] + ps[1].0 + ['='] + TextBehind(ps[1..])
  }

  function TextOf(ps: seq<Pair>): string { if ps == [] then "" else ps[0].0 + ['='] + TextBehind(ps) }

  function KeysOf(ps: seq<Pair>): (r: seq<string>)
    ensures |r| == |ps| && forall i | 0 <= i < |ps| :: r[i] == ps[i].0
  {
    seq(|ps|, i requires 0 <= i < |ps| => ps[i].0)
  }

  ghost function PairsOf(labels: Labels): (ps: seq<Pair>)
    ensures var keys := SortKeys(labels.Keys);
            |ps| == |keys| && forall i | 0 <= i < |ps| :: keys[i] in labels && ps[i] == (keys[i], labels[keys[i]])
  {
    var keys := SortKeys(labels.Keys);
    assert forall i | 0 <= i < |keys| :: keys[i] in keys;
    seq(|keys|, i requires 0 <= i < |keys| => (keys[i], labels[keys[i]]))
  }

  lemma {:induction false} JoinIsText(ps: seq<Pair>, parts: seq<string>)
    requires |parts| == |ps| && forall i | 0 <= i < |ps| :: parts[i] == ps[i].0 + ['='] + ps[i].1
    ensures Join(parts, ",") == TextOf(ps)
  {
    if |ps| > 1 {
      JoinIsText(ps[1..], parts[1..]);
      assert parts[0] + "," + TextOf(ps[1..])
          == ps[0].0 + ['='] + (ps[0].1 + [','] + ps[1].0 + ['='] + TextBehind(ps[1..]));
    }
  }

  lemma KeyTextIs(labels: Labels)
    ensures KeyText(labels) == TextOf(PairsOf(labels))
  {
    JoinIsText(PairsOf(labels), KeyParts(labels, SortKeys(labels.Keys)));
  }

  lemma PairsAscend(labels: Labels)
    ensures KeysOf(PairsOf(labels)) == SortKeys(labels.Keys) && Ascending(KeysOf(PairsOf(labels)))
    ensures forall k | k in labels :: exists i :: 0 <= i < |PairsOf(labels)| && PairsOf(labels)[i].0 == k
  {
    SortAscends(labels.Keys);
    var ps, keys := PairsOf(labels), SortKeys(labels.Keys);
    hide SortKeys, Ascending;
    assert KeysOf(ps) == keys;
    forall k | k in labels ensures exists i :: 0 <= i < |ps| && ps[i].0 == k {
      assert k in keys;
      var i :| 0 <= i < |keys| && keys[i] == k;
      assert ps[i].0 == k;
    }
  }

  lemma PairsOfFacts(labels: Labels)
    ensures Ascending(KeysOf(PairsOf(labels))) && MapOf(PairsOf(labels)) == labels
    ensures forall i | 0 <= i < |PairsOf(labels)| :: PairsOf(labels)[i].0 in labels
  {
    var ps := PairsOf(labels);
    hide SortKeys, Ascending, MapOf;
    PairsAscend(labels);
    AscendingDistinct(ps);
    MapOfHas(ps);
    MapOfOnly(ps);
    forall k ensures k in MapOf(ps) <==> k in labels { }
  }

  lemma AscendingDistinct(ps: seq<Pair>)
    requires Ascending(KeysOf(ps))
    ensures DistinctKeys(ps)
  {
    forall i, j | 0 <= i < j < |ps| ensures ps[i].0 != ps[j].0 {
      assert Less(KeysOf(ps)[i], KeysOf(ps)[j]);
      LessTotal(ps[i].0, ps[j].0);
    }
  }

  /** Pairs in key order are the pairs of their map. */
  lemma PairsOfMap(ps: seq<Pair>)
    requires Ascending(KeysOf(ps))
    ensures PairsOf(MapOf(ps)) == ps
  {
    AscendingDistinct(ps);
    MapOfHas(ps);
    MapOfOnly(ps);
    var keys, labels := KeysOf(ps), MapOf(ps);
    forall k ensures k in labels.Keys <==> k in Elements(keys) {
      if k in labels {
        var i :| 0 <= i < |ps| && ps[i].0 == k;
        assert keys[i] == k;
      }
      if k in keys {
        var i :| 0 <= i < |keys| && keys[i] == k;
        assert ps[i].0 in labels;
      }
    }
    assert labels.Keys == Elements(keys);
    AscendingIsSorted(keys);
    forall i | 0 <= i < |ps| ensures PairsOf(labels)[i] == ps[i] { assert keys[i] == ps[i].0; }
  }

  // ---------------------------------------------------------------- breaks

  /** Keys without separators. */
  predicate Plain(ks: set<string>) { forall k | k in ks :: ',' !in k && '=' !in k }

  /** ",k=" stands at place p. */
  predicate KeyAt(k: string, t: string, p: nat) {
    p + |k| + 2 <= |t| && t[p] == ',' && t[p + 1..p + 1 + |k|] == k && t[p + 1 + |k|] == '='
  }

  /** A key that may follow j. */
  predicate Later(ks: set<string>, j: string, k: string) { k in ks && Less(j, k) }

  ghost predicate BreakAt(ks: set<string>, j: string, t: string, p: nat) {
    exists k :: Later(ks, j, k) && KeyAt(k, t, p)
  }

  /** A value that does not look as if it ended before it does. */
  ghost predicate CleanFor(ks: set<string>, j: string, v: string) {
    forall p | 0 <= p < |v| :: !BreakAt(ks, j, v, p)
  }

  ghost predicate AllClean(ks: set<string>, ps: seq<Pair>) {
    forall i | 0 <= i < |ps| :: CleanFor(ks, ps[i].0, ps[i].1)
  }

  /** No value of a set contains ",k=" for a later key k. */
  ghost predicate CleanSet(ks: set<string>, labels: Labels) {
    forall j | j in labels :: CleanFor(ks, j, labels[j])
  }

  lemma KeyChar(l: string, t: string, p: nat, q: nat)
    requires KeyAt(l, t, p) && p < q < p + 1 + |l|
    ensures t[q] in l
  {
    assert t[q] == t[p + 1..p + 1 + |l|][q - p - 1];
  }

  lemma KeyAtUnique(k: string, l: string, t: string, p: nat)
    requires '=' !in k && '=' !in l && KeyAt(k, t, p) && KeyAt(l, t, p)
    ensures k == l
  {
    if |k| < |l| { KeyChar(l, t, p, p + 1 + |k|); }
    if |l| < |k| { KeyChar(k, t, p, p + 1 + |l|); }
  }

  lemma KeyBreaks(ks: set<string>, j: string, k: string, t: string, p: nat)
    requires Later(ks, j, k) && KeyAt(k, t, p)
    ensures BreakAt(ks, j, t, p)
  {
  }

  lemma KeyWithin(k: string, t: string, n: nat, p: nat)
    requires n <= |t| && p + |k| + 2 <= n
    ensures KeyAt(k, t[..n], p) <==> KeyAt(k, t, p)
  {
    assert t[..n][p + 1..p + 1 + |k|] == t[p + 1..p + 1 + |k|];
  }

  /** The first place from p on where a value may end. */
  ghost function FirstBreak(ks: set<string>, j: string, t: string, p: nat): (r: nat)
    requires p <= |t|
    ensures p <= r <= |t| && (r < |t| ==> BreakAt(ks, j, t, r))
    ensures forall q | p <= q < r :: !BreakAt(ks, j, t, q)
    decreases |t| - p
  {
    if p == |t| || BreakAt(ks, j, t, p) then p else FirstBreak(ks, j, t, p + 1)
  }

  ghost function NextKey(ks: set<string>, j: string, t: string, p: nat): (k: string)
    requires BreakAt(ks, j, t, p)
    ensures Later(ks, j, k) && KeyAt(k, t, p)
  {
    var k :| Later(ks, j, k) && KeyAt(k, t, p);
    k
  }

  /** Reads what follows the key j and its equals sign: a value ends where it first may. */
  ghost function Read(ks: set<string>, j: string, t: string): (ps: seq<Pair>)
    ensures ps != []
    decreases |t|
  {
    var p := FirstBreak(ks, j, t, 0);
    if p == |t| then [(j, t)]
    else
      var k := NextKey(ks, j, t, p);
      [(j, t[..p])] + Read(ks, k, t[p + |k| + 2..])
  }

  predicate StartsWith(k: string, t: string) { |k| < |t| && t[..|k|] == k && t[|k|] == '=' }

  ghost function ReadKey(ks: set<string>, t: string): seq<Pair> {
    if exists k :: k in ks && StartsWith(k, t)
    then
      var k :| k in ks && StartsWith(k, t);
      Read(ks, k, t[|k| + 1..])
    else []
  }

  // ------------------------------------------------------------ there and back

  ghost predicate WellKeyed(ks: set<string>, ps: seq<Pair>) {
    Ascending(KeysOf(ps)) && forall i | 0 <= i < |ps| :: ps[i].0 in ks
  }

  lemma WellKeyedRest(ks: set<string>, ps: seq<Pair>)
    requires WellKeyed(ks, ps) && |ps| > 1
    ensures WellKeyed(ks, ps[1..]) && Later(ks, ps[0].0, ps[1].0)
  {
    var a, b := KeysOf(ps), KeysOf(ps[1..]);
    assert Less(a[0], a[1]);
    forall i, j | 0 <= i < j < |b| ensures Less(b[i], b[j]) { assert b[i] == a[i + 1] && b[j] == a[j + 1]; }
  }

  /** A clean value ends just where the next key begins. */
  lemma ValueEnds(ks: set<string>, j: string, v: string, k: string, tail: string)
    requires Plain(ks) && Later(ks, j, k) && CleanFor(ks, j, v)
    ensures var t := v + [','] + k + ['='] + tail;
            FirstBreak(ks, j, t, 0) == |v| && KeyAt(k, t, |v|) && t[..|v|] == v && t[|v| + |k| + 2..] == tail
  {
    var t := v + [','] + k + ['='] + tail;
    assert t[|v| + 1..|v| + 1 + |k|] == k;
    assert BreakAt(ks, j, t, |v|);
    forall p | 0 <= p < |v| ensures !BreakAt(ks, j, t, p) {
      forall l | Later(ks, j, l) ensures !KeyAt(l, t, p) { NotAcross(ks, j, v, t, l, p); }
    }
  }

  lemma NotAcross(ks: set<string>, j: string, v: string, t: string, l: string, p: nat)
    requires Plain(ks) && Later(ks, j, l) && CleanFor(ks, j, v)
    requires p < |v| < |t| && t[..|v|] == v && t[|v|] == ','
    ensures !KeyAt(l, t, p)
  {
    hide KeyAt, BreakAt;
    if KeyAt(l, t, p) {
      KeyEnd(l, t, p);
      if p + 1 + |l| < |v| {
        KeyWithin(l, t, |v|, p);
        KeyBreaks(ks, j, l, v, p);
      } else if p + 1 + |l| > |v| {
        KeyChar(l, t, p, |v|);
      }
    }
  }

  lemma KeyEnd(l: string, t: string, p: nat)
    requires KeyAt(l, t, p)
    ensures p + 1 + |l| < |t| && t[p + 1 + |l|] == '='
  {
  }

  lemma LastValueEnds(ks: set<string>, j: string, v: string)
    requires CleanFor(ks, j, v)
    ensures FirstBreak(ks, j, v, 0) == |v|
  {
  }

  lemma {:induction false} CleanReads(ks: set<string>, ps: seq<Pair>)
    requires Plain(ks) && ps != [] && WellKeyed(ks, ps) && AllClean(ks, ps)
    ensures Read(ks, ps[0].0, TextBehind(ps)) == ps
    decreases |ps|
  {
    var j, v, t := ps[0].0, ps[0].1, TextBehind(ps);
    if |ps| == 1 {
      LastValueEnds(ks, j, v);
    } else {
      WellKeyedRest(ks, ps);
      var tail := TextBehind(ps[1..]);
      ValueEnds(ks, j, v, ps[1].0, tail);
      KeyAtUnique(NextKey(ks, j, t, |v|), ps[1].0, t, |v|);
      CleanReads(ks, ps[1..]);
      assert ps == [(j, v)] + ps[1..];
    }
  }

  lemma CutClean(ks: set<string>, j: string, t: string, p: nat)
    requires p <= |t| && forall q | 0 <= q < p :: !BreakAt(ks, j, t, q)
    ensures CleanFor(ks, j, t[..p])
  {
    forall q: nat | q < p ensures !BreakAt(ks, j, t[..p], q) {
      forall k | Later(ks, j, k) ensures !KeyAt(k, t[..p], q) {
        if q + |k| + 2 <= p { KeyWithin(k, t, p, q); }
        if KeyAt(k, t, q) { KeyBreaks(ks, j, k, t, q); }
      }
    }
  }

  lemma ConsKeyed(ks: set<string>, p: Pair, ps: seq<Pair>)
    requires p.0 in ks && ps != [] && WellKeyed(ks, ps) && Less(p.0, ps[0].0)
    ensures WellKeyed(ks, [p] + ps)
  {
    var a, b := KeysOf([p] + ps), KeysOf(ps);
    forall i, j | 0 <= i < j < |a| ensures Less(a[i], a[j]) {
      assert a[j] == b[j - 1];
      if i > 0 {
        assert a[i] == b[i - 1];
      } else if j > 1 {
        LessTransitive(p.0, b[0], b[j - 1]);
      }
    }
  }

  lemma TextJoins(j: string, v: string, qs: seq<Pair>, t: string, p: nat)
    requires qs != [] && p <= |t| && v == t[..p] && KeyAt(qs[0].0, t, p) && TextBehind(qs) == t[p + |qs[0].0| + 2..]
    ensures TextBehind([(j, v)] + qs) == t
  {
    var k := qs[0].0;
    assert ([(j, v)] + qs)[1..] == qs;
    assert t == t[..p] + [','] + k + ['='] + t[p + |k| + 2..];
  }

  lemma CleanCons(ks: set<string>, p: Pair, qs: seq<Pair>)
    requires CleanFor(ks, p.0, p.1) && AllClean(ks, qs)
    ensures AllClean(ks, [p] + qs)
  {
    hide CleanFor;
  }

  /** Whatever is read is clean, and reads as it did. */
  lemma {:induction false} ReadIsClean(ks: set<string>, j: string, t: string)
    requires j in ks
    ensures var ps := Read(ks, j, t);
            && WellKeyed(ks, ps) && AllClean(ks, ps) && ps[0].0 == j && TextBehind(ps) == t
    decreases |t|
  {
    var p := FirstBreak(ks, j, t, 0);
    CutClean(ks, j, t, p);
    if p == |t| {
      assert t[..p] == t;
      hide CleanFor;
    } else {
      var k := NextKey(ks, j, t, p);
      assert p + |k| + 2 <= |t|;
      assert Read(ks, j, t) == [(j, t[..p])] + Read(ks, k, t[p + |k| + 2..]);
      hide Read, FirstBreak, WellKeyed, AllClean, TextBehind, CleanFor, BreakAt, KeyAt;
      var qs := Read(ks, k, t[p + |k| + 2..]);
      ReadIsClean(ks, k, t[p + |k| + 2..]);
      ConsKeyed(ks, (j, t[..p]), qs);
      CleanCons(ks, (j, t[..p]), qs);
      TextJoins(j, t[..p], qs, t, p);
    }
  }

  lemma StartIs(k: string, t: string)
    requires StartsWith(k, t) && '=' !in k
    ensures |k| == Index(t, '=') && k == t[..Index(t, '=')]
  {
    assert t == k + ['='] + t[|k| + 1..];
    IndexAt(k, '=', t[|k| + 1..]);
  }

  lemma StartUnique(ks: set<string>, k: string, l: string, t: string)
    requires Plain(ks) && k in ks && l in ks && StartsWith(k, t) && StartsWith(l, t)
    ensures k == l
  {
    StartIs(k, t);
    StartIs(l, t);
  }

  lemma TextStarts(ks: set<string>, ps: seq<Pair>)
    requires Plain(ks) && ps != [] && ps[0].0 in ks
    ensures ReadKey(ks, TextOf(ps)) == Read(ks, ps[0].0, TextBehind(ps))
  {
    var k, t := ps[0].0, TextOf(ps);
    assert t == k + ['='] + TextBehind(ps);
    assert t[..|k|] == k && StartsWith(k, t);
    assert t[|k| + 1..] == TextBehind(ps);
    forall l | l in ks && StartsWith(l, t) ensures l == k { StartUnique(ks, k, l, t); }
  }

  /** The label set that a key text is read as. */
  ghost function Recovered(ks: set<string>, t: string): Labels { MapOf(ReadKey(ks, t)) }

  lemma PairsKeyed(ks: set<string>, labels: Labels)
    requires labels.Keys <= ks
    ensures WellKeyed(ks, PairsOf(labels)) && (CleanSet(ks, labels) <==> AllClean(ks, PairsOf(labels)))
  {
    PairsOfFacts(labels);
    var ps, keys := PairsOf(labels), SortKeys(labels.Keys);
    hide CleanFor, SortKeys;
    if AllClean(ks, ps) {
      forall j | j in labels ensures CleanFor(ks, j, labels[j]) {
        assert j in keys;
        var i :| 0 <= i < |keys| && keys[i] == j;
        assert ps[i] == (j, labels[j]);
      }
    }
  }

  /** Any set over the possible keys has its text in common with the clean one it is read as. */
  lemma RecoveredShares(ks: set<string>, labels: Labels)
    requires Plain(ks) && labels.Keys <= ks
    ensures var r := Recovered(ks, KeyText(labels));
            r.Keys <= ks && CleanSet(ks, r) && KeyText(r) == KeyText(labels)
  {
    hide SortKeys, AllClean, CleanSet, WellKeyed, Ascending, KeyText, Read;
    KeyTextIs(labels);
    PairsKeyed(ks, labels);
    var ps := PairsOf(labels);
    if ps == [] {
      NothingRead(ks);
      PairsOfFacts(labels);
    } else {
      FirstKeyed(ks, ps);
      TextStarts(ks, ps);
      ReadIsClean(ks, ps[0].0, TextBehind(ps));
      var qs := Read(ks, ps[0].0, TextBehind(ps));
      KeyedAscends(ks, qs);
      PairsOfMap(qs);
      KeyedWithin(ks, qs);
      KeyTextIs(MapOf(qs));
      PairsKeyed(ks, MapOf(qs));
    }
  }

  lemma NothingRead(ks: set<string>)
    ensures ReadKey(ks, "") == [] && TextOf([]) == "" && KeyText(map[]) == "" && CleanSet(ks, map[])
  {
    KeyTextIs(map[]);
  }

  lemma FirstKeyed(ks: set<string>, ps: seq<Pair>)
    requires WellKeyed(ks, ps) && ps != []
    ensures ps[0].0 in ks
  {
  }

  lemma KeyedAscends(ks: set<string>, ps: seq<Pair>)
    requires WellKeyed(ks, ps)
    ensures Ascending(KeysOf(ps))
  {
  }

  lemma KeyedWithin(ks: set<string>, ps: seq<Pair>)
    requires WellKeyed(ks, ps)
    ensures MapOf(ps).Keys <= ks
  {
    MapOfOnly(ps);
  }

  /** A label set is read back from its stream key exactly if it is clean. */
  lemma KeyTextReadsBackExactly(ks: set<string>, labels: Labels)
    requires Plain(ks) && labels.Keys <= ks
    ensures Recovered(ks, KeyText(labels)) == labels <==> CleanSet(ks, labels)
  {
    hide SortKeys, AllClean, CleanSet, WellKeyed, Ascending, KeyText, Read;
    RecoveredShares(ks, labels);
    if CleanSet(ks, labels) {
      KeyTextIs(labels);
      PairsKeyed(ks, labels);
      PairsOfFacts(labels);
      var ps := PairsOf(labels);
      if ps == [] {
        NothingRead(ks);
      } else {
        FirstKeyed(ks, ps);
        TextStarts(ks, ps);
        CleanReads(ks, ps);
      }
    }
  }

  /** Two clean sets with one key text are equal. */
  lemma KeyTextInjective(ks: set<string>, a: Labels, b: Labels)
    requires Plain(ks) && a.Keys <= ks && b.Keys <= ks && CleanSet(ks, a) && CleanSet(ks, b)
    requires KeyText(a) == KeyText(b)
    ensures a == b
  {
    hide CleanSet, KeyText;
    KeyTextReadsBackExactly(ks, a);
    KeyTextReadsBackExactly(ks, b);
  }

  /** A set that is not clean shares its key text with another set, which is clean. */
  lemma KeyTextCollides(ks: set<string>, a: Labels) returns (b: Labels)
    requires Plain(ks) && a.Keys <= ks && !CleanSet(ks, a)
    ensures b.Keys <= ks && CleanSet(ks, b) && b != a && KeyText(b) == KeyText(a)
  {
    hide CleanSet, KeyText;
    b := Recovered(ks, KeyText(a));
    RecoveredShares(ks, a);
    KeyTextReadsBackExactly(ks, a);
  }
}
