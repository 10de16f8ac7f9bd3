/** Label texts as clients write them (gateway/pkg/sink/loki/loki.go:369-402): with spaces anywhere around names,
    equals signs, quoted values and commas, with names given twice, and with pieces that are no labels. */
module LokiTexts {
  import opened GoStrings
  import opened LokiLabels

  // ------------------------------------------------------------------- trims

  predicate AllCut(s: string, cut: char -> bool) { forall i | 0 <= i < |s| :: cut(s[i]) }

  lemma {:induction false} TrimLeftCut(u: string, cut: char -> bool)
    requires AllCut(u, cut)
    ensures TrimLeft(u, cut) == ""
  {
    if u != "" { TrimLeftCut(u[1..], cut); }
  }

  lemma {:induction false} TrimRightCut(s: string, v: string, cut: char -> bool)
    requires AllCut(v, cut) && (s == "" || !cut(s[|s| - 1]))
    ensures TrimRight(s + v, cut) == s
  {
    if v == "" {
      assert s + v == s;
    } else {
      assert (s + v)[..|s + v| - 1] == s + v[..|v| - 1];
      TrimRightCut(s, v[..|v| - 1], cut);
    }
  }

  /** What is cut off at both ends leaves what stands between. */
  lemma TrimAround(u: string, s: string, v: string, cut: char -> bool)
    requires AllCut(u, cut) && AllCut(v, cut) && Untrimmed(s, cut)
    ensures Trim(u + s + v, cut) == s
  {
    TrimLeftCut(u, cut);
    if s == "" {
      assert u + s + v == u + v;
      TrimLeftCut(u + v, cut);
    } else {
      assert u + s + v == u + (s + v);
      TrimLeftAppend(u, s + v, cut);
      assert "" + (s + v) == s + v;
      TrimRightCut(s, v, cut);
    }
  }

  // ------------------------------------------------------------------ pieces

  /** What stands between two commas: a label with spaces in four places, or no label. */
  datatype Piece =
    | Written(lead: string, key: string, beforeEq: string, afterEq: string, value: string, tail: string)
    | Other(text: string)

  function Text(p: Piece): string {
    match p
    case Written(lead, key, beforeEq, afterEq, value, tail) =>
      lead + (key + beforeEq + ['='] + (afterEq + ("\"" + value + "\""))) + tail
    case Other(text) => text
  }

  predicate Proper(p: Piece) {
    match p
    case Written(lead, key, beforeEq, afterEq, value, tail) =>
      && AllCut(lead, IsSpace) && AllCut(beforeEq, IsSpace) && AllCut(afterEq, IsSpace) && AllCut(tail, IsSpace)
      && CleanKey(key) && CleanValue(value)
    case Other(text) => ',' !in text && '=' !in text
  }

  lemma QuotedUntrimmed(v: string)
    ensures var q := "\"" + v + "\""; Untrimmed(q, IsSpace) && |q| >= 2 && q[0] == '"' && q[|q| - 1] == '"'
  {
  }

  lemma NoneIn(s: string, c: char)
    requires AllCut(s, IsSpace) && !IsSpace(c)
    ensures c !in s
  {
  }

  /** What is left of a written piece between the outer spaces. */
  lemma CoreTrimmed(p: Piece)
    requires p.Written? && Proper(p)
    ensures var q := p.afterEq + ("\"" + p.value + "\"");
            TrimSpace(Text(p)) == NameText(p) + ['='] + q
  {
    var q := p.afterEq + ("\"" + p.value + "\"");
    QuotedUntrimmed(p.value);
    assert q[|q| - 1] == '"' by { assert q == p.afterEq + ("\"" + p.value) + ['"']; }
    hide IsSpace, CleanValue;
    if p.key == "" {
      var core := ['='] + q;
      assert Text(p) == (p.lead + p.beforeEq) + core + p.tail;
      OuterSpaces(p.lead + p.beforeEq, core, p.tail);
      assert "" + ['='] + q == core;
    } else {
      var core := p.key + p.beforeEq + ['='] + q;
      assert core[0] == p.key[0] && core[|core| - 1] == '"';
      OuterSpaces(p.lead, core, p.tail);
    }
  }

  lemma OuterSpaces(u: string, core: string, v: string)
    requires AllCut(u, IsSpace) && AllCut(v, IsSpace) && core != "" && !IsSpace(core[0]) && core[|core| - 1] == '"'
    ensures TrimSpace(u + core + v) == core
  {
    TrimAround(u, core, v, IsSpace);
  }

  lemma ValueTrimmed(afterEq: string, v: string)
    requires AllCut(afterEq, IsSpace) && CleanValue(v)
    ensures Trim(TrimSpace(afterEq + ("\"" + v + "\"")), IsQuote) == v
  {
    var q := "\"" + v + "\"";
    QuotedUntrimmed(v);
    TrimAround(afterEq, q, "", IsSpace);
    assert afterEq + q + "" == afterEq + q;
    TrimQuoted(v);
  }

  /** The name with the spaces that are left around it. */
  function NameText(p: Piece): string
    requires p.Written?
  {
    if p.key == "" then "" else p.key + p.beforeEq
  }

  lemma NameTrimmed(p: Piece)
    requires p.Written? && Proper(p)
    ensures TrimSpace(NameText(p)) == p.key && '=' !in NameText(p)
  {
    NoneIn(p.beforeEq, '=');
    if p.key != "" {
      TrimAround("", p.key, p.beforeEq, IsSpace);
      assert "" + p.key + p.beforeEq == NameText(p);
    }
  }

  lemma ParsedAt(core: string, name: string, q: string, labels: Labels)
    requires core == name + ['='] + q && '=' !in name
    ensures forall t | TrimSpace(t) == core ::
              ParsePair(t, labels) == labels[TrimSpace(name) := Trim(TrimSpace(q), IsQuote)]
  {
    IndexAt(name, '=', q);
    assert core[..|name|] == name && core[|name| + 1..] == q && core != "";
    hide TrimSpace, Trim, Index;
  }

  /** A written piece is read as its label. */
  lemma WrittenReads(p: Piece, labels: Labels)
    requires p.Written? && Proper(p)
    ensures ParsePair(Text(p), labels) == labels[p.key := p.value]
  {
    var q := p.afterEq + ("\"" + p.value + "\"");
    CoreTrimmed(p);
    NameTrimmed(p);
    ValueTrimmed(p.afterEq, p.value);
    ParsedAt(NameText(p) + ['='] + q, NameText(p), q, labels);
    hide TrimSpace, Trim, Text, ParsePair, Proper;
  }

  /** A piece without an equals sign changes nothing. */
  lemma OtherIsSkipped(text: string, labels: Labels)
    requires '=' !in text
    ensures ParsePair(text, labels) == labels
  {
    var p := TrimSpace(text);
    TrimEnds(text, IsSpace);
    assert '=' !in p;
    hide TrimSpace, Trim;
  }

  // ------------------------------------------------------------------- texts

  function Texts(ps: seq<Piece>): (r: seq<string>)
    ensures |r| == |ps| && forall i | 0 <= i < |ps| :: r[i] == Text(ps[i])
  {
    seq(|ps|, i requires 0 <= i < |ps| => Text(ps[i]))
  }

  /** The labels that are written, in order. */
  function Written(ps: seq<Piece>): seq<Pair> {
    if ps == [] then []
    else
      var last := ps[|ps| - 1];
      Written(ps[..|ps| - 1]) + if last.Written? then [(last.key, last.value)] else []
  }

  ghost predicate AllProper(ps: seq<Piece>) { forall i | 0 <= i < |ps| :: Proper(ps[i]) }

  lemma MapOfMore(qs: seq<Pair>, q: Pair)
    ensures MapOf(qs + [q]) == MapOf(qs)[q.0 := q.1]
  {
    assert (qs + [q])[..|qs|] == qs;
  }

  lemma {:induction false} PiecesRead(ps: seq<Piece>)
    requires AllProper(ps)
    ensures ParsePairs(Texts(ps)) == MapOf(Written(ps))
  {
    if ps != [] {
      var n := |ps| - 1;
      PiecesRead(ps[..n]);
      assert Texts(ps)[..n] == Texts(ps[..n]);
      assert Proper(ps[n]);
      hide Proper, ParsePair, MapOf;
      match ps[n]
      case Written(_, _, _, _, _, _) =>
        WrittenReads(ps[n], MapOf(Written(ps[..n])));
        MapOfMore(Written(ps[..n]), (ps[n].key, ps[n].value));
      case Other(text) =>
        OtherProper(text);
        OtherIsSkipped(text, MapOf(Written(ps[..n])));
        assert Written(ps[..n]) + [] == Written(ps[..n]);
    }
  }

  lemma OtherProper(text: string)
    requires Proper(Other(text))
    ensures '=' !in text
  {
  }

  lemma NoCommas(p: Piece)
    requires Proper(p)
    ensures ',' !in Text(p) && (p.Written? ==> Text(p) != "")
  {
    if p.Written? {
      NoneIn(p.lead, ',');
      NoneIn(p.beforeEq, ',');
      NoneIn(p.afterEq, ',');
      NoneIn(p.tail, ',');
      hide IsSpace;
    }
  }

  /** For every key, the last label written counts; no other key is read. */
  ghost predicate LastCounts(labels: Labels, qs: seq<Pair>) {
    && (forall k | k in labels :: exists i :: 0 <= i < |qs| && qs[i].0 == k)
    && (forall i | 0 <= i < |qs| && (forall j | i < j < |qs| :: qs[j].0 != qs[i].0) ::
          qs[i].0 in labels && labels[qs[i].0] == qs[i].1)
  }

  lemma {:induction false} MapOfLast(qs: seq<Pair>)
    ensures LastCounts(MapOf(qs), qs)
  {
    MapOfOnly(qs);
    if qs != [] {
      var n := |qs| - 1;
      MapOfLast(qs[..n]);
      forall i | 0 <= i < |qs| && (forall j | i < j < |qs| :: qs[j].0 != qs[i].0)
        ensures qs[i].0 in MapOf(qs) && MapOf(qs)[qs[i].0] == qs[i].1
      {
        if i < n {
          assert qs[n].0 != qs[i].0;
          assert forall j | i < j < n :: qs[..n][j].0 != qs[..n][i].0;
        }
      }
    }
  }

  lemma {:induction false} JoinEmpty(parts: seq<string>)
    requires parts != [] && Join(parts, ",") == ""
    ensures parts == [""]
  {
  }

  /** However the labels are spaced, and whatever stands between them that is no label: in braces, the text is
      read as the labels written in it, of those for one key the last. */
  lemma SpacedTextReads(open: string, ps: seq<Piece>, close: string)
    requires AllCut(open, IsBrace) && AllCut(close, IsBrace) && ps != [] && AllProper(ps)
    requires Untrimmed(Join(Texts(ps), ","), IsBrace)
    ensures var labels := ParseLabels(open + Join(Texts(ps), ",") + close);
            labels == MapOf(Written(ps)) && LastCounts(labels, Written(ps))
  {
    var t := Join(Texts(ps), ",");
    TrimAround(open, t, close, IsBrace);
    MapOfLast(Written(ps));
    PiecesRead(ps);
    forall p | p in Texts(ps) ensures ',' !in p {
      var i :| 0 <= i < |ps| && Texts(ps)[i] == p;
      NoCommas(ps[i]);
    }
    hide Trim, Proper, LastCounts, MapOf, IsBrace;
    if t == "" {
      JoinEmpty(Texts(ps));
      assert |ps| == 1 && Text(ps[0]) == "" && Proper(ps[0]);
      NoCommas(ps[0]);
      OneOther(ps);
    } else {
      SplitJoin(Texts(ps), ',');
    }
  }

  lemma OneOther(ps: seq<Piece>)
    requires |ps| == 1 && ps[0].Other?
    ensures Written(ps) == [] && MapOf([]) == map[]
  {
    assert ps[..0] == [];
  }

  /** The form of docs/_docs/implement/user-guide.md:412. */
  lemma DocumentedTextReads()
    ensures ParseLabels("{service=\"api\", env=\"production\"}") == map["service" := "api", "env" := "production"]
  {
    var ps := [Piece.Written("", "service", "", "", "api", ""), Piece.Written(" ", "env", "", "", "production", "")];
    FirstPiece(ps[0]);
    SecondPiece(ps[1]);
    hide Proper, Text;
    var a, b := "service=\"api\"", " env=\"production\"";
    var t := a + "," + b;
    TwoTexts(ps, a, b);
    DocumentedIs(t);
    DocumentedLabels(ps);
    hide ParseLabels, Join, Written, MapOf, LastCounts;
    SpacedTextReads("{", ps, "}");
  }

  lemma DocumentedIs(t: string)
    requires t == "service=\"api\"" + "," + " env=\"production\""
    ensures Untrimmed(t, IsBrace) && "{" + t + "}" == "{service=\"api\", env=\"production\"}"
  {
    assert t[0] == 's' && t[|t| - 1] == '"';
  }

  lemma FirstPiece(p: Piece)
    requires p == Piece.Written("", "service", "", "", "api", "")
    ensures Proper(p) && Text(p) == "service=\"api\""
  {
    PlainPiece("", "service", "api");
  }

  lemma SecondClean()
    ensures AllCut(" ", IsSpace) && CleanKey("env") && CleanValue("production")
  {
  }

  lemma SecondPiece(q: Piece)
    requires q == Piece.Written(" ", "env", "", "", "production", "")
    ensures Proper(q) && Text(q) == " env=\"production\""
  {
    SecondClean();
    PlainPiece(" ", "env", "production");
    hide Proper, Text, CleanKey, CleanValue;
  }

  lemma PlainPiece(lead: string, key: string, value: string)
    requires AllCut(lead, IsSpace) && CleanKey(key) && CleanValue(value)
    ensures var p := Piece.Written(lead, key, "", "", value, "");
            Proper(p) && Text(p) == lead + key + "=\"" + value + "\""
  {
  }

  lemma TwoTexts(ps: seq<Piece>, a: string, b: string)
    requires |ps| == 2 && Text(ps[0]) == a && Text(ps[1]) == b
    ensures Join(Texts(ps), ",") == a + "," + b
  {
    hide Text;
    assert Texts(ps) == [a, b] && [a, b][1..] == [b];
  }

  lemma DocumentedLabels(ps: seq<Piece>)
    requires |ps| == 2 && ps[0].Written? && ps[1].Written?
    ensures MapOf(Written(ps)) == map[ps[0].key := ps[0].value][ps[1].key := ps[1].value]
  {
    var p, q := (ps[0].key, ps[0].value), (ps[1].key, ps[1].value);
    assert ps[..1] == [ps[0]] && [ps[0]][..0] == [];
    assert Written(ps[..1]) == Written([]) + [p];
    assert Written(ps) == [p] + [q];
    MapOfMore([], p);
    MapOfMore([p], q);
    assert [] + [p] == [p];
  }
}
