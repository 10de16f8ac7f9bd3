/** The parts of Go's strings package that the label code uses. */
module GoStrings {
  /** strings.ReplaceAll for a pattern that is not empty. */
  function ReplaceAll(s: string, old_: string, new_: string): string
    requires old_ != []
    decreases |s|
  {
    if |s| < |old_| then s
    else if s[..|old_|] == old_ then new_ + ReplaceAll(s[|old_|..], old_, new_)
    else [s[0]] + ReplaceAll(s[1..], old_, new_)
  }

  /** strings.Join */
  function Join(parts: seq<string>, sep: string): string {
    if parts == [] then ""
    else if |parts| == 1 then parts[0]
    else parts[0] + sep + Join(parts[1..], sep)
  }

  /** strings.Split for a separator of one character. */
  function Split(s: string, sep: char): (parts: seq<string>)
    ensures parts != []
  {
    if s == [] then [[]]
    else
      var rest := Split(s[1..], sep);
      if s[0] == sep then [[]] + rest else [[s[0]] + rest[0]] + rest[1..]
  }

  /** strings.Index for a pattern of one character; |s| stands for -1. */
  function Index(s: string, c: char): (i: nat)
    ensures i <= |s| && (i < |s| ==> s[i] == c)
    ensures c !in s[..i]
  {
    if s == [] || s[0] == c then 0
    else
      assert s[..1 + Index(s[1..], c)] == [s[0]] + s[1..][..Index(s[1..], c)];
      1 + Index(s[1..], c)
  }

  /** strings.ToLower on ASCII letters. */
  function ToLower(s: string): (r: string)
    ensures |r| == |s|
  {
    seq(|s|, i requires 0 <= i < |s| => if 'A' <= s[i] <= 'Z' then s[i] + ('a' - 'A') else s[i])
  }

  function TrimLeft(s: string, cut: char -> bool): string {
    if s != [] && cut(s[0]) then TrimLeft(s[1..], cut) else s
  }

  function TrimRight(s: string, cut: char -> bool): string {
    if s != [] && cut(s[|s| - 1]) then TrimRight(s[..|s| - 1], cut) else s
  }

  /** strings.Trim */
  function Trim(s: string, cut: char -> bool): string {
    TrimRight(TrimLeft(s, cut), cut)
  }

  /** unicode.IsSpace */
  predicate IsSpace(c: char) {
    var u := c as int;
    || 0x09 <= u <= 0x0D || u == 0x20 || u == 0x85 || u == 0xA0 || u == 0x1680
    || 0x2000 <= u <= 0x200A || u == 0x2028 || u == 0x2029 || u == 0x202F || u == 0x205F || u == 0x3000
  }

  function TrimSpace(s: string): string { Trim(s, IsSpace) }

  // ------------------------------------------------------------------- laws

  lemma {:induction false} SplitOne(s: string, sep: char)
    requires sep !in s
    ensures Split(s, sep) == [s]
  {
    if s != [] {
      SplitOne(s[1..], sep);
      assert s == [s[0]] + s[1..];
    }
  }

  lemma {:induction false} SplitAt(p: string, s: string, sep: char)
    requires sep !in p
    ensures Split(p + [sep] + s, sep) == [p] + Split(s, sep)
  {
    var t := p + [sep] + s;
    if p == [] {
      assert t[1..] == s;
    } else {
      assert t[1..] == p[1..] + [sep] + s;
      SplitAt(p[1..], s, sep);
      assert [p[0]] + p[1..] == p;
    }
  }

  /** Splitting undoes joining when no part has the separator. */
  lemma {:induction false} SplitJoin(parts: seq<string>, sep: char)
    requires parts != [] && forall p | p in parts :: sep !in p
    ensures Split(Join(parts, [sep]), sep) == parts
  {
    if |parts| == 1 {
      SplitOne(parts[0], sep);
    } else {
      SplitJoin(parts[1..], sep);
      SplitAt(parts[0], Join(parts[1..], [sep]), sep);
      assert Join(parts, [sep]) == parts[0] + [sep] + Join(parts[1..], [sep]);
      assert [parts[0]] + parts[1..] == parts;
    }
  }

  /** No part of a split has the separator. */
  lemma {:induction false} SplitParts(s: string, sep: char)
    ensures forall p | p in Split(s, sep) :: sep !in p
  {
    if s != [] { SplitParts(s[1..], sep); }
  }

  lemma {:induction false} IndexAt(p: string, c: char, s: string)
    requires c !in p
    ensures Index(p + [c] + s, c) == |p|
  {
    var t := p + [c] + s;
    if p != [] {
      assert t[1..] == p[1..] + [c] + s;
      IndexAt(p[1..], c, s);
    }
  }

  /** Neither end of s is cut off. */
  predicate Untrimmed(s: string, cut: char -> bool) {
    s == [] || (!cut(s[0]) && !cut(s[|s| - 1]))
  }

  lemma TrimKeeps(s: string, cut: char -> bool)
    requires Untrimmed(s, cut)
    ensures Trim(s, cut) == s
  {
  }

  lemma {:induction false} TrimLeftEnds(s: string, cut: char -> bool)
    ensures var r := TrimLeft(s, cut); (r == [] || !cut(r[0])) && |r| <= |s|
    ensures forall c | c in TrimLeft(s, cut) :: c in s
  {
    if s != [] && cut(s[0]) { TrimLeftEnds(s[1..], cut); }
  }

  lemma {:induction false} TrimRightEnds(s: string, cut: char -> bool)
    ensures var r := TrimRight(s, cut); (r == [] || !cut(r[|r| - 1])) && r <= s
  {
    if s != [] && cut(s[|s| - 1]) { TrimRightEnds(s[..|s| - 1], cut); }
  }

  lemma TrimEnds(s: string, cut: char -> bool)
    ensures Untrimmed(Trim(s, cut), cut) && |Trim(s, cut)| <= |s|
    ensures forall c | c in Trim(s, cut) :: c in s
  {
    TrimLeftEnds(s, cut);
    TrimRightEnds(TrimLeft(s, cut), cut);
  }

  lemma TrimRightOne(s: string, r: char, cut: char -> bool)
    requires cut(r) && (s == [] || !cut(s[|s| - 1]))
    ensures TrimRight(s + [r], cut) == s
  {
    assert (s + [r])[..|s|] == s;
  }

  /** One character cut off at each end. */
  lemma TrimBoth(l: char, s: string, r: char, cut: char -> bool)
    requires cut(l) && cut(r) && (s == [] || !cut(s[|s| - 1]))
    ensures Trim([l] + s + [r], cut) == TrimRight(TrimLeft(s + [r], cut), cut)
    ensures (s == [] || !cut(s[0])) ==> Trim([l] + s + [r], cut) == s
  {
    assert ([l] + s + [r])[1..] == s + [r];
    assert (s + [r])[..|s|] == s;
    if s == [] {
      assert (s + [r])[1..] == [];
    }
  }

  lemma {:induction false} TrimLeftAppend(u: string, t: string, cut: char -> bool)
    requires t != [] && !cut(t[0])
    ensures TrimLeft(u + t, cut) == TrimLeft(u, cut) + t
  {
    if u == [] {
      assert u + t == t;
    } else {
      assert (u + t)[1..] == u[1..] + t;
      TrimLeftAppend(u[1..], t, cut);
    }
  }

  lemma {:induction false} TrimLeftSuffix(s: string, cut: char -> bool)
    ensures var r := TrimLeft(s, cut); |r| <= |s| && r == s[|s| - |r|..]
    ensures s != [] && cut(s[0]) ==> |TrimLeft(s, cut)| < |s|
  {
    if s != [] && cut(s[0]) { TrimLeftSuffix(s[1..], cut); }
  }

  // ------------------------------------------------------------------ order

  /** The order of sort.Strings, strictly. */
  predicate Less(a: string, b: string) {
    b != "" && (a == "" || a[0] < b[0] || (a[0] == b[0] && Less(a[1..], b[1..])))
  }

  lemma {:induction false} LessTotal(a: string, b: string)
    ensures a == b || Less(a, b) || Less(b, a)
    ensures !(Less(a, b) && Less(b, a)) && !Less(a, a)
  {
    if a != "" && b != "" && a[0] == b[0] {
      LessTotal(a[1..], b[1..]);
      assert a == [a[0]] + a[1..] && b == [b[0]] + b[1..];
    }
    if a != "" { LessTotal(a[1..], a[1..]); }
  }

  lemma {:induction false} LessTransitive(a: string, b: string, c: string)
    requires Less(a, b) && Less(b, c)
    ensures Less(a, c)
  {
    if a != "" && a[0] == b[0] == c[0] { LessTransitive(a[1..], b[1..], c[1..]); }
  }

  ghost predicate IsFirst(m: string, s: set<string>) {
    m in s && forall x | x in s && x != m :: Less(m, x)
  }

  lemma {:induction false} FirstExists(s: set<string>)
    requires s != {}
    ensures exists m :: IsFirst(m, s)
  {
    var m :| m in s;
    var t := s - {m};
    if t == {} {
      assert forall x | x in s && x != m :: x in t;
      assert IsFirst(m, s);
    } else {
      FirstExists(t);
      var n :| IsFirst(n, t);
      LessTotal(m, n);
      var k := if Less(m, n) then m else n;
      forall x | x in s && x != k ensures Less(k, x) {
        if k == m && x != n { LessTransitive(m, n, x); }
      }
      assert IsFirst(k, s);
    }
  }

  lemma FirstUnique(m: string, n: string, s: set<string>)
    requires IsFirst(m, s) && IsFirst(n, s)
    ensures m == n
  {
    LessTotal(m, n);
  }

  /** The keys of a map after sort.Strings. */
  ghost function SortKeys(s: set<string>): (keys: seq<string>)
    ensures forall k :: k in keys <==> k in s
    ensures |keys| == |s|
  {
    if s == {} then []
    else
      FirstExists(s);
      var m :| IsFirst(m, s);
      [m] + SortKeys(s - {m})
  }

  lemma SortFirst(s: set<string>, m: string)
    requires IsFirst(m, s)
    ensures SortKeys(s) == [m] + SortKeys(s - {m})
  {
    forall n | IsFirst(n, s) ensures n == m { FirstUnique(m, n, s); }
  }

  lemma SortNone()
    ensures SortKeys({}) == []
  {
  }

  /** sort.Strings */
  method Sort(s: set<string>) returns (keys: seq<string>)
    ensures keys == SortKeys(s)
  {
    hide SortKeys, IsFirst;
    SortNone();
    keys := [];
    var left := s;
    while left != {}
      invariant keys + SortKeys(left) == SortKeys(s)
      decreases left
    {
      var m := First(left);
      SortFirst(left, m);
      left := left - {m};
      keys := keys + [m];
    }
  }

  method First(s: set<string>) returns (m: string)
    requires s != {}
    ensures IsFirst(m, s)
  {
    m :| m in s;
    var left := s - {m};
    while left != {}
      invariant left <= s && m in s && m !in left
      invariant forall x | x in s - left && x != m :: Less(m, x)
      decreases left
    {
      var x :| x in left;
      LessTotal(m, x);
      if Less(x, m) {
        forall y | y in s - left && y != m ensures Less(x, y) { LessTransitive(x, m, y); }
        m := x;
      }
      left := left - {x};
    }
  }
}
