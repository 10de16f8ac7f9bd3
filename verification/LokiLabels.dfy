/** Labels of the Loki sink (gateway/pkg/sink/loki/loki.go:248-275, 369-428): reading the printed
    form of a label set, and the text that keys a stream buffer. */
module LokiLabels {
  import opened GoStrings

  type Labels = map<string, string>

  predicate IsBrace(c: char) { c == '{' || c == '}' }

  predicate IsQuote(c: char) { c == '"' }

  // ---------------------------------------------------------------- parsing

  function ParsePair(pair: string, labels: Labels): Labels {
    var p := TrimSpace(pair);
    if p == "" then labels
    else
      var eq := Index(p, '=');
      if eq == |p| then labels
      else labels[TrimSpace(p[..eq]) := Trim(TrimSpace(p[eq + 1..]), IsQuote)]
  }

  /** Later pairs win. */
  function ParsePairs(pairs: seq<string>): Labels {
    if pairs == [] then map[] else ParsePair(pairs[|pairs| - 1], ParsePairs(pairs[..|pairs| - 1]))
  }

  function ParseLabels(s: string): Labels {
    var t := Trim(s, IsBrace);
    if t == "" then map[] else ParsePairs(Split(t, ','))
  }

  method ParseLokiLabelsString(labelsStr: string) returns (labels: Labels)
    ensures labels == ParseLabels(labelsStr)
  {
    hide Trim, TrimSpace, Index, Split;
    labels := map[];
    var s := Trim(labelsStr, IsBrace);
    if s == "" {
      return;
    }
    var pairs := Split(s, ',');
    var n := 0;
    while n < |pairs|
      invariant 0 <= n <= |pairs|
      invariant labels == ParsePairs(pairs[..n])
    {
      assert pairs[..n + 1][..n] == pairs[..n];
      var pair := TrimSpace(pairs[n]);
      if pair != "" {
        var eqIndex := Index(pair, '=');
        if eqIndex < |pair| {
          var key := TrimSpace(pair[..eqIndex]);
          var value := TrimSpace(pair[eqIndex + 1..]);
          value := Trim(value, IsQuote);
          labels := labels[key := value];
        }
      }
      n := n + 1;
    }
    assert pairs[..n] == pairs;
  }

  // --------------------------------------------------------------- printing

  type Pair = (string, string)

  function Quoted(v: string): string { "=\"" + v + "\"" }

  function PrintPair(p: Pair): string { p.0 + Quoted(p.1) }

  function PrintPairs(ps: seq<Pair>): (r: seq<string>)
    ensures |r| == |ps| && forall i | 0 <= i < |ps| :: r[i] == PrintPair(ps[i])
  {
    seq(|ps|, i requires 0 <= i < |ps| => PrintPair(ps[i]))
  }

  /** The form {k="v",...} that Loki clients send. */
  function Print(ps: seq<Pair>): string { "{" + Join(PrintPairs(ps), ",") + "}" }

  function MapOf(ps: seq<Pair>): Labels {
    if ps == [] then map[] else MapOf(ps[..|ps| - 1])[ps[|ps| - 1].0 := ps[|ps| - 1].1]
  }

  predicate DistinctKeys(ps: seq<Pair>) {
    forall i, j | 0 <= i < j < |ps| :: ps[i].0 != ps[j].0
  }

  predicate CleanKey(k: string) { ',' !in k && '=' !in k && Untrimmed(k, IsSpace) }

  predicate CleanValue(v: string) { ',' !in v && Untrimmed(v, IsQuote) }

  predicate Clean(ps: seq<Pair>) {
    forall i | 0 <= i < |ps| :: CleanKey(ps[i].0) && CleanValue(ps[i].1)
  }

  /** No brace at the very front, where it would be taken for the opening one. */
  predicate OpenFront(ps: seq<Pair>) {
    ps == [] || ps[0].0 == "" || !IsBrace(ps[0].0[0])
  }

  // --------------------------------------------------------- there and back

  lemma TrimQuoted(v: string)
    requires Untrimmed(v, IsQuote)
    ensures Trim("\"" + v + "\"", IsQuote) == v
  {
    TrimBoth('"', v, '"', IsQuote);
  }

  lemma PairText(k: string, v: string)
    requires CleanKey(k) && CleanValue(v)
    ensures var p, q := PrintPair((k, v)), "\"" + v + "\"";
            && p == k + ['='] + q && p != "" && p[..|k|] == k && p[|k| + 1..] == q
            && Untrimmed(p, IsSpace) && Untrimmed(q, IsSpace) && Index(p, '=') == |k| < |p|
  {
    var p, q := PrintPair((k, v)), "\"" + v + "\"";
    assert p == k + ['='] + q;
    IndexAt(k, '=', q);
    hide Index;
    assert p[|p| - 1] == '"' && q[0] == '"' && q[|q| - 1] == '"';
    assert p[0] == if k == "" then '=' else k[0];
  }

  /** A clean pair is read as printed, also where its key lost some characters in front. */
  lemma PairReadsBack(k: string, v: string, labels: Labels)
    requires CleanKey(k) && CleanValue(v)
    ensures ParsePair(PrintPair((k, v)), labels) == labels[k := v]
  {
    var p, q := PrintPair((k, v)), "\"" + v + "\"";
    PairText(k, v);
    TrimQuoted(v);
    hide Trim, Index, Untrimmed, IsSpace, PrintPair;
    TrimKeeps(p, IsSpace);
    TrimKeeps(q, IsSpace);
    TrimKeeps(k, IsSpace);
  }

  lemma {:induction false} PairsReadBack(ps: seq<Pair>)
    requires Clean(ps)
    ensures ParsePairs(PrintPairs(ps)) == MapOf(ps)
  {
    if ps != [] {
      var qs, p := ps[..|ps| - 1], ps[|ps| - 1];
      PairsReadBack(qs);
      assert PrintPairs(ps)[..|ps| - 1] == PrintPairs(qs);
      PairReadsBack(p.0, p.1, MapOf(qs));
    }
  }

  lemma {:induction false} JoinEnds(ps: seq<Pair>)
    requires ps != []
    ensures var b := Join(PrintPairs(ps), ",");
            b != [] && b[|b| - 1] == '"' && b[0] == (if ps[0].0 == "" then '=' else ps[0].0[0])
  {
    assert PrintPairs(ps)[0] == PrintPair(ps[0]);
    if |ps| > 1 {
      JoinEnds(ps[1..]);
      assert PrintPairs(ps)[1..] == PrintPairs(ps[1..]);
    }
  }

  lemma PrintedPairClean(p: Pair)
    requires ',' !in p.0 && ',' !in p.1
    ensures ',' !in PrintPair(p)
  {
  }

  /** Clean label sets survive printing and parsing. */
  lemma ReadsBack(ps: seq<Pair>)
    requires Clean(ps) && OpenFront(ps)
    ensures ParseLabels(Print(ps)) == MapOf(ps)
  {
    var b := Join(PrintPairs(ps), ",");
    if ps == [] {
      assert Print(ps) == "{}";
      assert "{}"[1..] == "}" && "}"[1..] == "";
    } else {
      JoinEnds(ps);
      TrimBoth('{', b, '}', IsBrace);
      PrintedClean(ps);
      SplitJoin(PrintPairs(ps), ',');
      PairsReadBack(ps);
    }
  }

  // ------------------------------------------------------------- only clean

  ghost predicate Tidy(labels: Labels) {
    forall k | k in labels :: CleanKey(k) && CleanValue(labels[k])
  }

  lemma PairIsTidy(pair: string, labels: Labels)
    requires ',' !in pair && Tidy(labels)
    ensures Tidy(ParsePair(pair, labels))
  {
    var p := TrimSpace(pair);
    TrimEnds(pair, IsSpace);
    var eq := Index(p, '=');
    if p != "" && eq < |p| {
      TrimEnds(p[..eq], IsSpace);
      TrimEnds(p[eq + 1..], IsSpace);
      TrimEnds(TrimSpace(p[eq + 1..]), IsQuote);
    }
  }

  lemma {:induction false} PairsAreTidy(pairs: seq<string>)
    requires forall p | p in pairs :: ',' !in p
    ensures Tidy(ParsePairs(pairs))
  {
    if pairs != [] {
      PairsAreTidy(pairs[..|pairs| - 1]);
      PairIsTidy(pairs[|pairs| - 1], ParsePairs(pairs[..|pairs| - 1]));
    }
  }

  /** Whatever the text, what is read is clean. */
  lemma ParsedIsTidy(s: string)
    ensures Tidy(ParseLabels(s))
  {
    var t := Trim(s, IsBrace);
    SplitParts(t, ',');
    PairsAreTidy(Split(t, ','));
  }

  lemma {:induction false} MapOfHas(ps: seq<Pair>)
    requires DistinctKeys(ps)
    ensures forall i | 0 <= i < |ps| :: ps[i].0 in MapOf(ps) && MapOf(ps)[ps[i].0] == ps[i].1
  {
    if ps != [] { MapOfHas(ps[..|ps| - 1]); }
  }

  lemma {:induction false} MapOfOnly(ps: seq<Pair>)
    ensures forall k | k in MapOf(ps) :: exists i :: 0 <= i < |ps| && ps[i].0 == k
  {
    if ps != [] {
      var qs := ps[..|ps| - 1];
      MapOfOnly(qs);
      forall k | k in MapOf(ps) ensures exists i :: 0 <= i < |ps| && ps[i].0 == k {
        if k == ps[|ps| - 1].0 {
          assert ps[|ps| - 1].0 == k;
        } else {
          assert k in MapOf(qs);
          var i :| 0 <= i < |qs| && qs[i].0 == k;
          assert ps[i].0 == k;
        }
      }
    }
  }

  /** What is left of a key whose first brace is taken for the opening one. */
  function Bitten(k: string): string { TrimLeft(TrimLeft(k, IsBrace), IsSpace) }

  lemma BittenClean(k: string)
    requires CleanKey(k) && k != "" && IsBrace(k[0])
    ensures CleanKey(Bitten(k)) && |Bitten(k)| < |k|
  {
    var b := TrimLeft(k, IsBrace);
    TrimLeftSuffix(k, IsBrace);
    TrimLeftSuffix(b, IsSpace);
    TrimLeftEnds(b, IsSpace);
    TrimLeftEnds(k, IsBrace);
    var r := Bitten(k);
    assert r != [] ==> r[|r| - 1] == b[|b| - 1] == k[|k| - 1];
  }

  /** Only the trimmed form of a pair counts. */
  lemma SameTrimmed(p: string, q: string, labels: Labels)
    requires TrimSpace(p) == q && Untrimmed(q, IsSpace)
    ensures ParsePair(p, labels) == ParsePair(q, labels)
  {
    TrimKeeps(q, IsSpace);
  }

  lemma TrimmedPair(u: string, v: string)
    ensures var b := TrimLeft(u, IsSpace);
            TrimSpace(u + Quoted(v)) == b + Quoted(v) && Untrimmed(b + Quoted(v), IsSpace)
  {
    var b := TrimLeft(u, IsSpace);
    TrimLeftAppend(u, Quoted(v), IsSpace);
    TrimLeftEnds(u, IsSpace);
    var r := b + Quoted(v);
    assert r[|r| - 1] == '"' && r[0] == if b == "" then '=' else b[0];
  }

  lemma BittenPair(k: string, v: string, labels: Labels)
    requires CleanKey(k) && CleanValue(v) && k != "" && IsBrace(k[0])
    ensures ParsePair(TrimLeft(k, IsBrace) + Quoted(v), labels) == labels[Bitten(k) := v]
  {
    hide TrimSpace, Untrimmed, Quoted, ParsePair, CleanKey, CleanValue, TrimLeft;
    BittenClean(k);
    TrimmedPair(TrimLeft(k, IsBrace), v);
    SameTrimmed(TrimLeft(k, IsBrace) + Quoted(v), Bitten(k) + Quoted(v), labels);
    PairReadsBack(Bitten(k), v, labels);
  }

  lemma {:induction false} BittenPairs(k: string, v: string, qs: seq<Pair>)
    requires CleanKey(k) && CleanValue(v) && k != "" && IsBrace(k[0]) && Clean(qs)
    ensures ParsePairs([TrimLeft(k, IsBrace) + Quoted(v)] + PrintPairs(qs)) == MapOf([(Bitten(k), v)] + qs)
    decreases |qs|
  {
    hide CleanKey, CleanValue, Bitten, ParsePair, TrimLeft, Quoted;
    var first := TrimLeft(k, IsBrace) + Quoted(v);
    var all := [first] + PrintPairs(qs);
    var ps := [(Bitten(k), v)] + qs;
    if qs == [] {
      BittenPair(k, v, map[]);
      assert all[..0] == [] && ps[..0] == [];
    } else {
      var rs, q := qs[..|qs| - 1], qs[|qs| - 1];
      BittenPairs(k, v, rs);
      assert all[..|all| - 1] == [first] + PrintPairs(rs);
      assert ps[..|ps| - 1] == [(Bitten(k), v)] + rs;
      PairReadsBack(q.0, q.1, MapOf([(Bitten(k), v)] + rs));
    }
  }

  lemma {:induction false} JoinFirst(p: string, u: string, rest: seq<string>)
    ensures Join([p + u] + rest, ",") == p + Join([u] + rest, ",")
  {
    if rest != [] {
      assert ([p + u] + rest)[1..] == rest && ([u] + rest)[1..] == rest;
    }
  }

  lemma PrintCons(k: string, v: string, qs: seq<Pair>)
    ensures PrintPairs([(k, v)] + qs) == [k + Quoted(v)] + PrintPairs(qs)
  {
  }

  /** Trimming the braces of a printed set takes those at the front of its first key, too. */
  lemma TrimBites(k: string, v: string, qs: seq<Pair>)
    ensures var rest := PrintPairs(qs);
            Trim(Print([(k, v)] + qs), IsBrace) == Join([TrimLeft(k, IsBrace) + Quoted(v)] + rest, ",")
  {
    hide Print;
    var t, rest := Quoted(v), PrintPairs(qs);
    var tail := Join([t] + rest, ",");
    var bitten := TrimLeft(k, IsBrace);
    PrintCons(k, v, qs);
    PrintCons("", v, qs);
    assert "" + t == t;
    JoinFirst(k, t, rest);
    JoinFirst(bitten, t, rest);
    JoinEnds([("", v)] + qs);
    PrintIs([(k, v)] + qs, k + tail);
    var c := bitten + tail;
    assert k + tail + ['}'] == k + (tail + ['}']) && bitten + (tail + ['}']) == c + ['}'];
    assert (k + tail)[|k + tail| - 1] == '"' && c[|c| - 1] == '"';
    hide Join, TrimLeft, TrimRight, Trim, Quoted;
    TrimBoth('{', k + tail, '}', IsBrace);
    TrimLeftAppend(k, tail + ['}'], IsBrace);
    TrimRightOne(c, '}', IsBrace);
  }

  lemma PrintIs(ps: seq<Pair>, b: string)
    requires Join(PrintPairs(ps), ",") == b
    ensures Print(ps) == ['{'] + b + ['}']
  {
  }

  lemma PrintedClean(ps: seq<Pair>)
    requires Clean(ps)
    ensures forall p | p in PrintPairs(ps) :: ',' !in p
  {
    forall p | p in PrintPairs(ps) ensures ',' !in p {
      var i :| 0 <= i < |ps| && PrintPairs(ps)[i] == p;
      PrintedPairClean(ps[i]);
    }
  }

  /** A brace at the front of the first key is lost. */
  lemma FrontBraceIsLost(k: string, v: string, qs: seq<Pair>)
    requires CleanKey(k) && CleanValue(v) && k != "" && IsBrace(k[0]) && Clean(qs)
    ensures ParseLabels(Print([(k, v)] + qs)) == MapOf([(Bitten(k), v)] + qs)
  {
    var pieces := [TrimLeft(k, IsBrace) + Quoted(v)] + PrintPairs(qs);
    TrimBites(k, v, qs);
    TrimLeftEnds(k, IsBrace);
    PrintedPairClean((TrimLeft(k, IsBrace), v));
    PrintedClean(qs);
    assert Join(pieces, ",") != "" by { JoinLong(pieces); }
    SplitJoin(pieces, ',');
    BittenPairs(k, v, qs);
  }

  lemma JoinLong(pieces: seq<string>)
    requires pieces != [] && pieces[0] != ""
    ensures Join(pieces, ",") != ""
  {
  }

  lemma FirstKeyIsLost(ps: seq<Pair>, k: string)
    requires ps != [] && DistinctKeys(ps) && k != ps[0].0
    ensures ps[0].0 !in MapOf([(k, ps[0].1)] + ps[1..])
  {
    var qs := [(k, ps[0].1)] + ps[1..];
    MapOfOnly(qs);
    forall i | 0 <= i < |qs| ensures qs[i].0 != ps[0].0 {
      if i > 0 { assert qs[i] == ps[i]; }
    }
  }

  /** A label set survives printing and parsing exactly if its keys and values are clean and no
      brace stands at the front. */
  lemma ReadsBackExactly(ps: seq<Pair>)
    requires DistinctKeys(ps)
    ensures ParseLabels(Print(ps)) == MapOf(ps) <==> Clean(ps) && OpenFront(ps)
  {
    hide ParseLabels, Print, CleanKey, CleanValue, Bitten;
    MapOfHas(ps);
    if Clean(ps) && OpenFront(ps) {
      ReadsBack(ps);
    } else if Clean(ps) {
      assert ps == [(ps[0].0, ps[0].1)] + ps[1..];
      assert Clean(ps[1..]) by { forall i | 0 <= i < |ps[1..]| ensures ps[1..][i] == ps[i + 1] { } }
      FrontBraceIsLost(ps[0].0, ps[0].1, ps[1..]);
      BittenClean(ps[0].0);
      FirstKeyIsLost(ps, Bitten(ps[0].0));
    } else {
      ParsedIsTidy(Print(ps));
    }
  }

  // ------------------------------------------------------------- stream keys

  const KEY_LABELS: set<string> := {"service", "env", "severity", "namespace", "pod"}

  /** The labels a stream is keyed on; configured ones win. */
  function StreamLabels(labels: Labels, configured: Labels): Labels {
    (map k | k in labels && k in KEY_LABELS :: labels[k]) + configured
  }

  ghost function KeyParts(labels: Labels, keys: seq<string>): (parts: seq<string>)
    requires forall k | k in keys :: k in labels
    ensures |parts| == |keys| && forall i | 0 <= i < |keys| :: parts[i] == keys[i] + ['='] + labels[keys[i]]
  {
    seq(|keys|, i requires 0 <= i < |keys| => keys[i] + ['='] + labels[keys[i]])
  }

  /** The text of a stream key: the labels in the order of their keys. */
  ghost function KeyText(labels: Labels): string {
    Join(KeyParts(labels, SortKeys(labels.Keys)), ",")
  }

  method PickLabels(labels: Labels) returns (picked: Labels)
    ensures picked == map k | k in labels && k in KEY_LABELS :: labels[k]
  {
    picked := map[];
    var left := labels.Keys;
    while left != {}
      invariant left <= labels.Keys
      invariant picked == map k | k in labels && k in KEY_LABELS && k !in left :: labels[k]
      decreases left
    {
      var k :| k in left;
      if k == "service" || k == "env" || k == "severity" || k == "namespace" || k == "pod" {
        picked := picked[k := labels[k]];
      }
      left := left - {k};
    }
  }

  method AddLabels(labels: Labels, more: Labels) returns (all: Labels)
    ensures all == labels + more
  {
    all := labels;
    var left := more.Keys;
    while left != {}
      invariant left <= more.Keys
      invariant all == labels + map k | k in more && k !in left :: more[k]
      decreases left
    {
      var k :| k in left;
      all := all[k := more[k]];
      left := left - {k};
    }
    assert (map k | k in more && k !in left :: more[k]) == more;
  }

  method JoinKey(labels: Labels) returns (key: string)
    ensures key == KeyText(labels)
  {
    hide SortKeys;
    var keys := Sort(labels.Keys);
    var keyParts := [];
    var n := 0;
    while n < |keys|
      invariant 0 <= n <= |keys|
      invariant keyParts == KeyParts(labels, keys[..n])
    {
      assert keys[n] in keys && keys[..n + 1] == keys[..n] + [keys[n]];
      keyParts := keyParts + [keys[n] + ['='] + labels[keys[n]]];
      n := n + 1;
    }
    assert keys[..n] == keys;
    key := Join(keyParts, ",");
  }

  /** streamKey, and streamKeyFromLabels when nothing is configured. */
  method StreamKey(labels: Labels, configured: Labels) returns (key: string, keyLabels: Labels)
    ensures keyLabels == StreamLabels(labels, configured)
    ensures key == KeyText(keyLabels)
  {
    hide KeyText;
    keyLabels := PickLabels(labels);
    keyLabels := AddLabels(keyLabels, configured);
    key := JoinKey(keyLabels);
  }

  lemma KeyTextOne(k: string, v: string)
    ensures KeyText(map[k := v]) == k + ['='] + v
  {
    SortOne(k);
    hide SortKeys;
    var a: Labels := map[k := v];
    assert a.Keys == {k} && KeyParts(a, [k]) == [k + ['='] + v];
  }

  lemma KeyTextTwo(k: string, v: string, l: string, w: string)
    requires Less(k, l)
    ensures KeyText(map[k := v, l := w]) == k + ['='] + v + "," + (l + ['='] + w)
  {
    SortTwo(k, l);
    hide SortKeys;
    LessTotal(k, l);
    var a: Labels := map[k := v, l := w];
    assert a.Keys == {k, l} && a[k] == v;
    var parts := [k + ['='] + v, l + ['='] + w];
    assert SortKeys(a.Keys) == [k, l] && KeyParts(a, [k, l]) == parts && parts[1..] == [l + ['='] + w];
    assert KeyText(a) == parts[0] + "," + Join(parts[1..], ",");
  }

  /** With a comma in a value, two label sets can share a key. */
  lemma KeyTextAmbiguousWithComma()
    ensures var a: Labels := map["env" := "a,pod=b"]; var b: Labels := map["env" := "a", "pod" := "b"];
            a != b && KeyText(a) == KeyText(b)
  {
    hide KeyText;
    var a: Labels := map["env" := "a,pod=b"];
    var b: Labels := map["env" := "a", "pod" := "b"];
    assert "pod" in b && "pod" !in a;
    KeyTextOne("env", "a,pod=b");
    KeyTextTwo("env", "a", "pod", "b");
    assert "env" + ['='] + "a" + "," + ("pod" + ['='] + "b") == "env" + ['='] + "a,pod=b";
  }

  lemma SortOne(k: string)
    ensures SortKeys({k}) == [k]
  {
    forall m | IsFirst(m, {k}) ensures m == k { }
    assert {k} - {k} == {};
    assert IsFirst(k, {k});
  }

  lemma SortTwo(k: string, l: string)
    requires Less(k, l)
    ensures SortKeys({k, l}) == [k, l]
  {
    LessTotal(k, l);
    var s := {k, l};
    assert IsFirst(k, s);
    forall m | IsFirst(m, s) ensures m == k { FirstUnique(m, k, s); }
    assert s - {k} == {l};
    SortOne(l);
  }
}
