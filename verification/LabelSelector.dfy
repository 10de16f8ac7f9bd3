/** The planner's LogQL query (planner/pkg/service/service.go:148-157, 209-236): the service, env
    and namespace labels and the regular expression, quoted and escaped. */
module LabelSelectors {
  import opened GoStrings
  import opened Options

  /** labels[k], which is "" for a missing key. */
  function Label(labels: map<string, string>, k: string): string {
    if k in labels then labels[k] else ""
  }

  function EscapeLabel(s: string): string {
    ReplaceAll(ReplaceAll(s, "\\", "\\\\"), "\"", "\\\"")
  }

  function Part(labels: map<string, string>, k: string): seq<string> {
    var v := Label(labels, k);
    if v != "" then [k + "=\"" + EscapeLabel(v) + "\""] else []
  }

  function BuildLabelSelector(labels: map<string, string>): string {
    var parts := Part(labels, "service") + Part(labels, "env") + Part(labels, "namespace");
    if |parts| == 0 then "{}" else "{" + Join(parts, ", ") + "}"
  }

  /** escapeForLogQL has the body of escapeLabel. */
  function Query(labels: map<string, string>, regex: string): string {
    BuildLabelSelector(labels) + " " + "|~ \"" + EscapeLabel(regex) + "\""
  }

  // ---------------------------------------------------------------- escaping

  /** Every backslash and quote gets a backslash, in one pass. */
  function EscapeChars(s: string): string {
    if s == [] then []
    else (if s[0] == '\\' || s[0] == '"' then ['\\', s[0]] else [s[0]]) + EscapeChars(s[1..])
  }

  lemma {:induction false} ReplaceChar(s: string, c: char, new_: string)
    ensures s == [] ==> ReplaceAll(s, [c], new_) == []
    ensures s != [] ==> ReplaceAll(s, [c], new_) == (if s[0] == c then new_ else [s[0]]) + ReplaceAll(s[1..], [c], new_)
  {
    if s != [] { assert s[..1] == [s[0]]; }
  }

  lemma ReplaceCons(x: char, u: string, c: char, new_: string)
    ensures ReplaceAll([x] + u, [c], new_) == (if x == c then new_ else [x]) + ReplaceAll(u, [c], new_)
  {
    assert ([x] + u)[1..] == u;
    ReplaceChar([x] + u, c, new_);
  }

  /** What escaping makes of the first character. */
  lemma EscapeFirst(x: char, u: string)
    ensures EscapeLabel([x] + u) == (if x == '\\' || x == '"' then ['\\', x] else [x]) + EscapeLabel(u)
  {
    hide ReplaceAll;
    var rest := ReplaceAll(u, "\\", "\\\\");
    ReplaceCons(x, u, '\\', "\\\\");
    if x == '\\' {
      assert "\\\\" + rest == ['\\'] + (['\\'] + rest);
      ReplaceCons('\\', ['\\'] + rest, '"', "\\\"");
      ReplaceCons('\\', rest, '"', "\\\"");
      var last := ReplaceAll(rest, "\"", "\\\"");
      assert ['\\'] + (['\\'] + last) == ['\\', '\\'] + last;
    } else {
      ReplaceCons(x, rest, '"', "\\\"");
    }
  }

  /** The two replacements in a row are one pass. */
  lemma {:induction false} EscapeIsOnePass(s: string)
    ensures EscapeLabel(s) == EscapeChars(s)
  {
    if s != [] {
      hide EscapeLabel;
      EscapeFirst(s[0], s[1..]);
      assert s == [s[0]] + s[1..];
      EscapeIsOnePass(s[1..]);
    }
  }

  /** Every quote is behind a backslash that is not itself behind one. */
  predicate NoBareQuote(s: string) {
    s == [] ||
    (s[0] == '\\' && |s| >= 2 && NoBareQuote(s[2..])) ||
    (s[0] != '\\' && s[0] != '"' && NoBareQuote(s[1..]))
  }

  lemma {:induction false} EscapedHasNoBareQuote(s: string)
    ensures NoBareQuote(EscapeLabel(s))
    decreases |s|
  {
    EscapeIsOnePass(s);
    if s != [] {
      EscapedHasNoBareQuote(s[1..]);
      EscapeIsOnePass(s[1..]);
      var e := EscapeChars(s);
      if s[0] == '\\' || s[0] == '"' {
        assert e[2..] == EscapeChars(s[1..]);
      } else {
        assert e[1..] == EscapeChars(s[1..]);
      }
    }
  }

  // --------------------------------------------------------------- decoding

  /** Reads up to the closing quote: the value without its escapes, and what follows. */
  function ReadQuoted(s: string): Option<(string, string)>
    decreases |s|
  {
    if s == [] then None
    else if s[0] == '"' then Some(("", s[1..]))
    else
      var escaped := s[0] == '\\';
      if escaped && |s| < 2 then None
      else
        match ReadQuoted(if escaped then s[2..] else s[1..])
        case None => None
        case Some(r) => Some(([if escaped then s[1] else s[0]] + r.0, r.1))
  }

  /** Reads name="value" and the separator after it; without the name, nothing and "". */
  function ReadField(name: string, s: string): Option<(string, string)> {
    var head := name + "=\"";
    if !(head <= s) then Some(("", s))
    else
      match ReadQuoted(s[|head|..])
      case None => None
      case Some(r) => Some((r.0, if ", " <= r.1 then r.1[2..] else r.1))
  }

  /** The three values a selector was built from, and what follows it. */
  function DecodeSelector(s: string): Option<((string, string, string), string)> {
    if s == [] || s[0] != '{' then None
    else
      match ReadField("service", s[1..])
      case None => None
      case Some(f) =>
        match ReadField("env", f.1)
        case None => None
        case Some(g) =>
          match ReadField("namespace", g.1)
          case None => None
          case Some(h) =>
            if h.1 != [] && h.1[0] == '}' then Some(((f.0, g.0, h.0), h.1[1..])) else None
  }

  /** The labels and the regular expression of a query. */
  function DecodeQuery(s: string): Option<((string, string, string), string)> {
    match DecodeSelector(s)
    case None => None
    case Some(d) =>
      if !(" |~ \"" <= d.1) then None
      else
        match ReadQuoted(d.1[5..])
        case None => None
        case Some(r) => if r.1 == [] then Some((d.0, r.0)) else None
  }

  lemma {:induction false} ReadsBack(v: string, rest: string)
    ensures ReadQuoted(EscapeChars(v) + ("\"" + rest)) == Some((v, rest))
    decreases |v|
  {
    var s := EscapeChars(v) + ("\"" + rest);
    if v == [] {
      assert s == "\"" + rest && s[1..] == rest;
    } else {
      ReadsBack(v[1..], rest);
      var tail := EscapeChars(v[1..]) + ("\"" + rest);
      if v[0] == '\\' || v[0] == '"' {
        assert s == ['\\', v[0]] + tail && s[2..] == tail;
      } else {
        assert s == [v[0]] + tail && s[1..] == tail;
      }
      assert [v[0]] + v[1..] == v;
    }
  }

  function Triple(labels: map<string, string>): (string, string, string) {
    (Label(labels, "service"), Label(labels, "env"), Label(labels, "namespace"))
  }

  /** What a selector still holds when the given parts are left. */
  function Left(parts: seq<string>, tail: string): string {
    Join(parts, ", ") + ("}" + tail)
  }

  lemma FieldPresent(name: string, v: string, rest: string)
    ensures ReadField(name, name + "=\"" + EscapeLabel(v) + "\"" + rest) ==
            Some((v, if ", " <= rest then rest[2..] else rest))
  {
    EscapeIsOnePass(v);
    ReadsBack(v, rest);
    var head := name + "=\"";
    var s := name + "=\"" + EscapeLabel(v) + "\"" + rest;
    assert s == head + (EscapeChars(v) + ("\"" + rest));
    assert s[..|head|] == head && s[|head|..] == EscapeChars(v) + ("\"" + rest);
  }

  lemma LeftCons(p: string, others: seq<string>, tail: string)
    ensures Left([p] + others, tail) == p + (if others == [] then "}" + tail else ", " + Left(others, tail))
  {
    if others != [] {
      assert ([p] + others)[1..] == others;
      assert Join([p] + others, ", ") == p + ", " + Join(others, ", ");
    }
  }

  /** Reading one field of a selector gives its label and leaves the other parts. */
  lemma FieldStep(labels: map<string, string>, name: string, others: seq<string>, tail: string)
    requires name != [] && Left(others, tail) != [] && Left(others, tail)[0] != name[0]
    ensures ReadField(name, Left(Part(labels, name) + others, tail)) == Some((Label(labels, name), Left(others, tail)))
  {
    var v := Label(labels, name);
    if v != "" {
      var p := name + "=\"" + EscapeLabel(v) + "\"";
      var rest := if others == [] then "}" + tail else ", " + Left(others, tail);
      LeftCons(p, others, tail);
      FieldPresent(name, v, rest);
      assert p + rest == name + "=\"" + EscapeLabel(v) + "\"" + rest;
      if others != [] {
        assert rest[..2] == ", " && rest[2..] == Left(others, tail);
      } else {
        assert rest == Left(others, tail) && rest[0] == '}';
      }
    } else {
      assert Part(labels, name) + others == others;
      HeadDiffers(name + "=\"", Left(others, tail));
    }
  }

  lemma HeadDiffers(head: string, s: string)
    requires head != [] && s != [] && head[0] != s[0]
    ensures !(head <= s)
  {
  }

  lemma LeftStart(labels: map<string, string>, name: string, others: seq<string>, tail: string)
    requires name != []
    ensures Left(others, tail) != []
    ensures Left(Part(labels, name) + others, tail)[0] in {name[0], Left(others, tail)[0]}
  {
    if Label(labels, name) != "" {
      LeftCons(name + "=\"" + EscapeLabel(Label(labels, name)) + "\"", others, tail);
    } else {
      assert Part(labels, name) + others == others;
    }
  }

  lemma SelectorText(labels: map<string, string>, tail: string)
    ensures BuildLabelSelector(labels) + tail ==
            "{" + Left(Part(labels, "service") + (Part(labels, "env") + (Part(labels, "namespace") + [])), tail)
  {
    hide Part;
    assert Part(labels, "service") + (Part(labels, "env") + (Part(labels, "namespace") + [])) ==
           Part(labels, "service") + Part(labels, "env") + Part(labels, "namespace");
  }

  /** The selector can be read back, whatever the labels hold and whatever follows. */
  lemma SelectorReadsBack(labels: map<string, string>, tail: string)
    ensures DecodeSelector(BuildLabelSelector(labels) + tail) == Some((Triple(labels), tail))
  {
    var p3 := Part(labels, "namespace") + [];
    var p2 := Part(labels, "env") + p3;
    var p1 := Part(labels, "service") + p2;
    assert Left([], tail) == "}" + tail;
    hide ReadField, Label, Part, Left, BuildLabelSelector;
    LeftStart(labels, "namespace", [], tail);
    LeftStart(labels, "env", p3, tail);
    FieldStep(labels, "namespace", [], tail);
    FieldStep(labels, "env", p3, tail);
    FieldStep(labels, "service", p2, tail);
    SelectorText(labels, tail);
    assert ("{" + Left(p1, tail))[1..] == Left(p1, tail);
    assert ("}" + tail)[1..] == tail;
  }

  /** Different service, env or namespace labels give different selectors. */
  lemma SelectorInjective(a: map<string, string>, b: map<string, string>)
    requires BuildLabelSelector(a) == BuildLabelSelector(b)
    ensures Triple(a) == Triple(b)
  {
    SelectorReadsBack(a, "");
    SelectorReadsBack(b, "");
  }

  lemma TailReads(regex: string)
    ensures var tail := " " + "|~ \"" + EscapeLabel(regex) + "\"";
            " |~ \"" <= tail && ReadQuoted(tail[5..]) == Some((regex, ""))
  {
    EscapeIsOnePass(regex);
    ReadsBack(regex, "");
    var tail := " " + "|~ \"" + EscapeLabel(regex) + "\"";
    assert tail[5..] == EscapeChars(regex) + ("\"" + "");
  }

  /** So can a whole query: no regular expression can pass for part of the selector. */
  lemma QueryReadsBack(labels: map<string, string>, regex: string)
    ensures DecodeQuery(Query(labels, regex)) == Some((Triple(labels), regex))
  {
    hide EscapeLabel, ReadQuoted, DecodeSelector, BuildLabelSelector, Triple;
    var tail := " " + "|~ \"" + EscapeLabel(regex) + "\"";
    assert Query(labels, regex) == BuildLabelSelector(labels) + tail;
    SelectorReadsBack(labels, tail);
    TailReads(regex);
  }
}
