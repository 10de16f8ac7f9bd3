/** The credit card check of the redactor (gateway/pkg/ingest/redactor.go:90-120), which is the Luhn
    check of Annex B of ISO/IEC 7812-1. */
module CardNumbers {
  // ---------------------------------------------------------- specification

  predicate IsDigit(c: char) { '0' <= c <= '9' }

  function Digit(c: char): int
    requires IsDigit(c)
  {
    c as int - '0' as int
  }

  predicate AllDigits(s: string) {
    forall i | 0 <= i < |s| :: IsDigit(s[i])
  }

  /** The class [-\s] of the regular expression. */
  predicate IsSeparator(c: char) {
    c in {'-', '\t', '\n', '\r', '\U{000C}', ' '}
  }

  function Strip(cc: string): string {
    if cc == [] then [] else (if IsSeparator(cc[0]) then [] else [cc[0]]) + Strip(cc[1..])
  }

  /** What a digit adds: itself, or in every second place the digits of its double. */
  function Weight(d: int, doubled: bool): int {
    if doubled then 2 * d / 10 + 2 * d % 10 else d
  }

  /** The first digit stands |s| - 1 places from the right, where counting and doubling start. */
  function LuhnSum(s: string): int
    requires AllDigits(s)
  {
    if s == [] then 0 else Weight(Digit(s[0]), (|s| - 1) % 2 == 1) + LuhnSum(s[1..])
  }

  predicate IsCardNumber(s: string) {
    13 <= |s| <= 19 && AllDigits(s) && LuhnSum(s) % 10 == 0
  }

  // ------------------------------------------------------------------- code

  method IsValidCreditCard(text: string) returns (valid: bool)
    ensures valid <==> IsCardNumber(Strip(text))
  {
    hide Weight, LuhnSum, Strip;
    var cc := Strip(text);
    if !(AllDigits(cc) && 13 <= |cc| <= 19) {
      return false;
    }
    var sum := 0;
    var alternate := false;
    var i := |cc| - 1;
    LuhnSumEnds(cc);
    while i >= 0
      invariant -1 <= i < |cc|
      invariant alternate <==> (|cc| - 1 - i) % 2 == 1
      invariant sum == LuhnSum(cc[i + 1..])
    {
      var digit := Digit(cc[i]);
      LuhnSumStep(cc, i);
      DoubledDigit(digit);
      if alternate {
        digit := digit * 2;
        if digit > 9 {
          digit := digit % 10 + 1;
        }
      }
      sum := sum + digit;
      alternate := !alternate;
      i := i - 1;
    }
    return sum % 10 == 0;
  }

  lemma LuhnSumEnds(s: string)
    requires AllDigits(s)
    ensures LuhnSum(s[|s|..]) == 0 && s[0..] == s
  {
  }

  lemma LuhnSumStep(s: string, i: nat)
    requires AllDigits(s) && i < |s|
    ensures LuhnSum(s[i..]) == Weight(Digit(s[i]), (|s| - 1 - i) % 2 == 1) + LuhnSum(s[i + 1..])
  {
    assert s[i..][1..] == s[i + 1..];
  }

  /** The code's doubling is the sum of the digits of the double. */
  lemma DoubledDigit(d: int)
    requires 0 <= d <= 9
    ensures Weight(d, false) == d
    ensures Weight(d, true) == if d * 2 > 9 then d * 2 % 10 + 1 else d * 2
    ensures Weight(d, true) == if d < 5 then 2 * d else 2 * d - 9
  {
  }

  // --------------------------------------------------------- error detection

  lemma {:induction false} LuhnSplit(u: string, v: string)
    requires AllDigits(u + v)
    ensures AllDigits(u) && AllDigits(v)
    ensures LuhnSum(u + v) == LuhnSumBefore(u, |v|) + LuhnSum(v)
  {
    assert forall i | 0 <= i < |u| :: (u + v)[i] == u[i];
    assert forall i | 0 <= i < |v| :: (u + v)[|u| + i] == v[i];
    if u == [] {
      assert u + v == v;
    } else {
      assert (u + v)[1..] == u[1..] + v;
      LuhnSplit(u[1..], v);
    }
  }

  /** The part of the sum due to u when n digits follow. */
  function LuhnSumBefore(u: string, n: nat): int
    requires AllDigits(u)
  {
    if u == [] then 0 else Weight(Digit(u[0]), (|u| + n - 1) % 2 == 1) + LuhnSumBefore(u[1..], n)
  }

  /** Changing one digit changes the sum by the difference of its weights. */
  lemma ChangeShifts(s: string, i: nat, c: char)
    requires AllDigits(s) && i < |s| && IsDigit(c)
    ensures AllDigits(s[i := c])
    ensures LuhnSum(s[i := c]) - LuhnSum(s) ==
            Weight(Digit(c), (|s| - 1 - i) % 2 == 1) - Weight(Digit(s[i]), (|s| - 1 - i) % 2 == 1)
  {
    var u, v := s[..i], s[i + 1..];
    assert s == u + ([s[i]] + v) && s[i := c] == u + ([c] + v);
    LuhnSplit(u, [s[i]] + v);
    LuhnSplit(u, [c] + v);
    assert ([s[i]] + v)[1..] == v && ([c] + v)[1..] == v;
  }

  /** No two digits have the same weight. */
  lemma WeightInjective(d: int, e: int, doubled: bool)
    requires 0 <= d <= 9 && 0 <= e <= 9 && d != e
    ensures Weight(d, doubled) != Weight(e, doubled)
    ensures -9 <= Weight(d, doubled) - Weight(e, doubled) <= 9
  {
    hide Weight;
    DoubledDigit(d);
    DoubledDigit(e);
  }

  lemma Modulo(a: int, x: int)
    requires a % 10 == 0
    ensures (a + x) % 10 == 0 <==> x % 10 == 0
  {
  }

  /** A number with one digit wrong is refused. */
  lemma ChangeIsDetected(s: string, i: nat, c: char)
    requires IsCardNumber(s) && i < |s| && IsDigit(c) && c != s[i]
    ensures !IsCardNumber(s[i := c])
  {
    hide Weight, LuhnSum;
    ChangeShifts(s, i, c);
    var x := Digit(c);
    var y := Digit(s[i]);
    WeightInjective(x, y, (|s| - 1 - i) % 2 == 1);
    Modulo(LuhnSum(s), LuhnSum(s[i := c]) - LuhnSum(s));
  }

  function Swap(s: string, i: nat): string
    requires i + 1 < |s|
  {
    s[i := s[i + 1]][i + 1 := s[i]]
  }

  lemma WeightsSwap(d: int, e: int, doubled: bool)
    requires 0 <= d <= 9 && 0 <= e <= 9 && d != e
    ensures (Weight(e, doubled) + Weight(d, !doubled) - Weight(d, doubled) - Weight(e, !doubled)) % 10 == 0 <==>
            (d == 0 && e == 9) || (d == 9 && e == 0)
  {
    hide Weight;
    DoubledDigit(d);
    DoubledDigit(e);
  }

  lemma SwapShifts(s: string, i: nat)
    requires AllDigits(s) && i + 1 < |s|
    ensures AllDigits(Swap(s, i))
    ensures var doubled := (|s| - 1 - i) % 2 == 1;
            LuhnSum(Swap(s, i)) - LuhnSum(s) ==
            Weight(Digit(s[i + 1]), doubled) + Weight(Digit(s[i]), !doubled)
            - Weight(Digit(s[i]), doubled) - Weight(Digit(s[i + 1]), !doubled)
  {
    hide Weight, LuhnSum;
    ChangeShifts(s, i, s[i + 1]);
    ChangeShifts(s[i := s[i + 1]], i + 1, s[i]);
    assert (|s| - 1 - (i + 1)) % 2 == 1 <==> !((|s| - 1 - i) % 2 == 1);
  }

  /** A number with two unequal neighbours swapped is refused, but for 0 and 9. */
  lemma SwapIsDetected(s: string, i: nat)
    requires IsCardNumber(s) && i + 1 < |s| && s[i] != s[i + 1]
    ensures IsCardNumber(Swap(s, i)) <==> (s[i] == '0' && s[i + 1] == '9') || (s[i] == '9' && s[i + 1] == '0')
  {
    hide Weight, LuhnSum;
    SwapShifts(s, i);
    var d, e := Digit(s[i]), Digit(s[i + 1]);
    WeightsSwap(d, e, (|s| - 1 - i) % 2 == 1);
    Modulo(LuhnSum(s), LuhnSum(Swap(s, i)) - LuhnSum(s));
    assert |Swap(s, i)| == |s|;
  }

  lemma {:induction false} StripConcat(u: string, v: string)
    ensures Strip(u + v) == Strip(u) + Strip(v)
  {
    if u == [] {
      assert u + v == v;
    } else {
      assert (u + v)[1..] == u[1..] + v;
      StripConcat(u[1..], v);
    }
  }

  /** The same in the text as it is written, separators and all. */
  lemma ChangeInTextIsDetected(text: string, i: nat, c: char)
    requires i < |text| && IsDigit(text[i]) && IsDigit(c) && c != text[i]
    requires IsCardNumber(Strip(text))
    ensures !IsCardNumber(Strip(text[i := c]))
  {
    hide IsCardNumber;
    var u, v := text[..i], text[i + 1..];
    assert text == u + ([text[i]] + v) && text[i := c] == u + ([c] + v);
    StripConcat(u, [text[i]] + v);
    StripConcat(u, [c] + v);
    StripConcat([text[i]], v);
    StripConcat([c], v);
    assert Strip([text[i]]) == [text[i]] && Strip([c]) == [c];
    var s, j := Strip(text), |Strip(u)|;
    assert s[j] == text[i] && Strip(text[i := c]) == s[j := c];
    ChangeIsDetected(s, j, c);
  }

  // -------------------------------------------------------------- known numbers

  lemma {:induction false} StripJoin(u: string, v: string)
    ensures Strip(u + v) == Strip(u) + Strip(v)
  {
    if u == "" {
      assert u + v == v;
    } else {
      assert (u + v)[1..] == u[1..] + v;
      StripJoin(u[1..], v);
    }
  }

  /** Spaces and dashes anywhere make no difference. */
  lemma SpacedIsSame(u: string, v: string, c: char)
    requires c in {' ', '-'}
    ensures Strip(u + [c] + v) == Strip(u + v)
  {
    StripJoin(u + [c], v);
    StripJoin(u, [c]);
    StripJoin(u, v);
    assert [c][1..] == "" && Strip([c]) == "" && Strip(u) + "" == Strip(u);
  }

  lemma {:induction false} StripDigits(s: string)
    requires AllDigits(s)
    ensures Strip(s) == s
  {
    if s != "" {
      StripDigits(s[1..]);
      assert s == [s[0]] + s[1..];
    }
  }

  function Ones(n: nat): string { if n == 0 then "" else ['1'] + Ones(n - 1) }

  lemma {:induction false} OnesSum(n: nat)
    ensures |Ones(n)| == n && AllDigits(Ones(n)) && LuhnSum(Ones(n)) == n / 2 * 3 + n % 2
  {
    if n > 0 {
      OnesSum(n - 1);
      assert Ones(n)[1..] == Ones(n - 1);
    }
  }

  /** Doubling starts at the second digit from the right: a four before fifteen ones is valid. */
  lemma TestNumberIsValid()
    ensures IsCardNumber(Strip(['4'] + Ones(15)))
  {
    OnesSum(15);
    var s := ['4'] + Ones(15);
    assert s[1..] == Ones(15);
    StripDigits(s);
    hide Ones, Strip;
  }
}
