/** Printing a number: the digit loop and the reversal in place, against the usual positional
    numeral, and the exact range of values for which the digit table is read within its bounds. */
module Numerals {

  const INT_MAX := 0x7FFF_FFFF
  const LONG_MAX := 0x7FFF_FFFF_FFFF_FFFF

  const DIGITS := "0123456789abcdef"

  // ---- numerals and their values -------------------------------------------------------------

  /** The two bases in use.  Their products and quotients are spelt out case by case, which keeps every
      proof below linear. */
  predicate Base(b: int) {
    b == 10 || b == 16
  }

  function Times(b: nat, q: int): int
    requires Base(b)
  {
    if b == 10 then 10 * q else 16 * q
  }

  function Div(b: nat, v: nat): (q: nat)
    requires Base(b)
    ensures 0 <= v - Times(b, q) < b
    ensures 2 * q <= v && (q == 0 <==> v < b)
  {
    if b == 10 then v / 10 else v / 16
  }

  function Mod(b: nat, v: nat): (d: nat)
    requires Base(b)
    ensures d < b && v == Times(b, Div(b, v)) + d
  {
    if b == 10 then v % 10 else v % 16
  }

  function Numeral(b: nat, v: nat): (s: string)
    requires Base(b)
    ensures s != "" && (v > 0 ==> s[0] != '0')
    ensures |s| > 1 <==> v >= b
  {
    if v < b then [DIGITS[v]] else Numeral(b, Div(b, v)) + [DIGITS[Mod(b, v)]]
  }

  predicate IsDigit(b: nat, c: char) {
    || ('0' <= c <= '9' && c as int - '0' as int < b)
    || ('a' <= c <= 'f' && c as int - 'a' as int + 10 < b)
  }

  function DigitValue(b: nat, c: char): (d: nat)
    requires Base(b) && IsDigit(b, c)
    ensures d < b
  {
    if '0' <= c <= '9' then c as int - '0' as int else c as int - 'a' as int + 10
  }

  predicate IsNumeral(b: nat, s: string) {
    s != "" && forall i :: 0 <= i < |s| ==> IsDigit(b, s[i])
  }

  /** What a reader makes of a string of digits, leading zeros or not. */
  function ValueOf(b: nat, s: string): nat
    requires Base(b) && forall i :: 0 <= i < |s| ==> IsDigit(b, s[i])
  {
    if s == "" then 0 else Times(b, ValueOf(b, s[..|s| - 1])) + DigitValue(b, s[|s| - 1])
  }

  lemma DigitRoundTrip(b: nat, d: nat)
    requires Base(b) && d < b
    ensures IsDigit(b, DIGITS[d]) && DigitValue(b, DIGITS[d]) == d
  {
    assert DIGITS[10] == 'a' && DIGITS[11] == 'b' && DIGITS[12] == 'c';
    assert DIGITS[13] == 'd' && DIGITS[14] == 'e' && DIGITS[15] == 'f';
  }

  lemma DigitOfValue(b: nat, c: char)
    requires Base(b) && IsDigit(b, c)
    ensures DIGITS[DigitValue(b, c)] == c
  {
    DigitRoundTrip(b, DigitValue(b, c));
  }

  /** Reading the numeral gives the number back. */
  lemma {:induction false} NumeralReadsBack(b: nat, v: nat)
    requires Base(b)
    ensures IsNumeral(b, Numeral(b, v)) && ValueOf(b, Numeral(b, v)) == v
  {
    if v < b {
      DigitRoundTrip(b, v);
    } else {
      NumeralReadsBack(b, Div(b, v));
      DigitRoundTrip(b, Mod(b, v));
      var s := Numeral(b, v);
      assert s[..|s| - 1] == Numeral(b, Div(b, v));
    }
  }

  /** Among strings of digits without a leading zero there is no other that reads as the number. */
  lemma {:induction false} NumeralIsUnique(b: nat, s: string)
    requires Base(b) && IsNumeral(b, s) && (|s| > 1 ==> s[0] != '0')
    ensures s == Numeral(b, ValueOf(b, s))
  {
    var n := |s| - 1;
    hide Numeral, ValueOf, IsDigit, DigitValue;
    ValueUnfolds(b, s);
    DigitOfValue(b, s[n]);
    if n == 0 {
      NumeralOfDigit(b, DigitValue(b, s[n]));
    } else {
      NumeralIsUnique(b, s[..n]);
      assert s[..n][0] == s[0] != '0';
      NumeralGrows(b, ValueOf(b, s[..n]), DigitValue(b, s[n]));
    }
    assert s == s[..n] + [s[n]];
  }

  lemma NumeralOfDigit(b: nat, d: nat)
    requires Base(b) && d < b
    ensures Numeral(b, Times(b, 0) + d) == [DIGITS[d]]
  {
  }

  lemma ValueUnfolds(b: nat, s: string)
    requires Base(b) && IsNumeral(b, s)
    ensures var n := |s| - 1;
            ValueOf(b, s) == Times(b, ValueOf(b, s[..n])) + DigitValue(b, s[n]) && (n == 0 ==> ValueOf(b, s[..n]) == 0)
  {
  }

  lemma NumeralGrows(b: nat, q: nat, d: nat)
    requires Base(b) && d < b && Numeral(b, q) != "0"
    ensures Numeral(b, Times(b, q) + d) == Numeral(b, q) + [DIGITS[d]]
  {
    assert q > 0;
    hide Numeral;
    DivideBack(b, q, d);
    NumeralOfLarge(b, Times(b, q) + d);
  }

  lemma DivideBack(b: nat, q: nat, d: nat)
    requires Base(b) && d < b
    ensures Div(b, Times(b, q) + d) == q && Mod(b, Times(b, q) + d) == d
    ensures q > 0 ==> Times(b, q) + d >= b
  {
  }

  /** The digits are the usual ones, and their places as well. */
  lemma NumeralInDigits(b: nat, v: nat)
    requires b == 10 || b == 16
    ensures v < b ==> Numeral(b, v) == ["0123456789abcdef"[v]]
    ensures v >= b ==> Numeral(b, v) == Numeral(b, v / b) + ["0123456789abcdef"[v % b]]
  {
    assert |"0123456789abcdef"| == 16;
    if b == 10 {
      assert v / b == v / 10 && v % b == v % 10;
    } else {
      assert v / b == v / 16 && v % b == v % 16;
    }
  }

  lemma NumeralOfLarge(b: nat, v: nat)
    requires Base(b) && v >= b
    ensures Numeral(b, v) == Numeral(b, Div(b, v)) + [DIGITS[Mod(b, v)]]
  {
  }

  // ---- the loop over a fixed array -----------------------------------------------------------

  function Reversed(s: string): (r: string)
    ensures |r| == |s|
  {
    if s == "" then "" else Reversed(s[1..]) + [s[0]]
  }

  lemma {:induction false} ReversedAt(s: string, k: nat)
    requires k < |s|
    ensures Reversed(s)[k] == s[|s| - 1 - k]
  {
    if k < |s| - 1 {
      ReversedAt(s[1..], k);
    }
  }

  lemma {:induction false} ReversedSnoc(s: string, c: char)
    ensures Reversed(s + [c]) == [c] + Reversed(s)
  {
    if s != "" {
      assert (s + [c])[1..] == s[1..] + [c];
      ReversedSnoc(s[1..], c);
    } else {
      assert (s + [c])[1..] == "";
    }
  }

  /** A C string: the characters before the first zero. */
  function CString(s: string): string {
    if s == "" || s[0] == '\0' then "" else [s[0]] + CString(s[1..])
  }

  lemma {:induction false} CStringUpTo(s: string, n: nat)
    requires n < |s| && s[n] == '\0' && forall i :: 0 <= i < n ==> s[i] != '\0'
    ensures CString(s) == s[..n]
  {
    if n > 0 {
      CStringUpTo(s[1..], n - 1);
      assert s[..n] == [s[0]] + s[1..][..n - 1];
    }
  }

  function Pow2(n: nat): nat {
    if n == 0 then 1 else 2 * Pow2(n - 1)
  }

  lemma {:induction false} LengthBound(b: nat, v: nat, k: nat)
    requires Base(b) && v < Pow2(k) && k > 0
    ensures |Numeral(b, v)| <= k
  {
    if v >= b {
      LengthBound(b, Div(b, v), k - 1);
    }
  }

  lemma NumeralIsShort(b: nat, v: nat)
    requires Base(b) && v <= INT_MAX
    ensures |Numeral(b, v)| <= 31
  {
    assert Pow2(8) == 256;
    assert Pow2(16) == 0x1_0000;
    assert Pow2(24) == 0x100_0000;
    LengthBound(b, v, 31);
  }

  /** Writes the digits, lowest first, until nothing of the value is left. */
  method WriteDigits(b: nat, value: int, result: array<char>) returns (n: nat)
    requires Base(b) && 0 <= value <= INT_MAX && result.Length == 100
    modifies result
    ensures 1 <= n <= 31 && Reversed(result[..n]) == Numeral(b, value)
  {
    hide Numeral, Reversed;
    n := 0;
    var rest: int := value;
    NumeralIsShort(b, value);
    NoDigitsYet(b, value);
    while true
      invariant 0 <= n < 31 && 0 <= rest && (n == 0 || rest > 0)
      invariant Numeral(b, value) == Numeral(b, rest) + Reversed(result[..n])
      decreases rest
    {
      var tmpValue := rest;
      rest := Div(b, rest);
      ghost var before := result[..n];
      result[n] := DIGITS[tmpValue - Times(b, rest)];
      n := n + 1;
      assert result[..n] == before + [DIGITS[Mod(b, tmpValue)]];
      NextDigit(b, tmpValue, before);
      if rest == 0 {
        return;
      }
    }
  }

  lemma NoDigitsYet(b: nat, v: nat)
    requires Base(b)
    ensures Numeral(b, v) == Numeral(b, v) + Reversed("")
  {
  }

  lemma NextDigit(b: nat, v: nat, before: string)
    requires Base(b)
    ensures Numeral(b, v) + Reversed(before) ==
            (if Div(b, v) == 0 then "" else Numeral(b, Div(b, v))) + Reversed(before + [DIGITS[Mod(b, v)]])
  {
    var d := DIGITS[Mod(b, v)];
    ReversedSnoc(before, d);
    hide Reversed;
    if Div(b, v) != 0 {
      Regroup(Numeral(b, Div(b, v)), d, Reversed(before));
    }
  }

  lemma Regroup(s: string, d: char, t: string)
    ensures s + [d] + t == s + ([d] + t)
  {
  }

  /** Turns the first n characters round, from both ends inwards. */
  method Invert(result: array<char>, n: nat)
    requires 1 <= n < result.Length
    modifies result
    ensures result[..n] == Reversed(old(result[..n])) && result[n..] == old(result[n..])
  {
    var low, high := 0, n - 1;
    while low < high
      invariant 0 <= low <= high + 1 && low + high == n - 1
      invariant forall k :: 0 <= k < low ==> result[k] == old(result[n - 1 - k])
      invariant forall k :: high < k < n ==> result[k] == old(result[n - 1 - k])
      invariant forall k :: low <= k <= high ==> result[k] == old(result[k])
      invariant forall k :: n <= k < result.Length ==> result[k] == old(result[k])
    {
      var tmp := result[high];
      result[high] := result[low];
      high := high - 1;
      result[low] := tmp;
      low := low + 1;
    }
    ghost var was := old(result[..n]);
    forall k | 0 <= k < n ensures result[..n][k] == Reversed(was)[k] {
      ReversedAt(was, k);
    }
  }

  lemma NumeralEndsAtZero(b: nat, value: nat, s: string, n: nat)
    requires Base(b) && n < |s| && s[n] == '\0' && s[..n] == Numeral(b, value)
    ensures CString(s) == Numeral(b, value)
  {
    NumeralReadsBack(b, value);
    forall i | 0 <= i < n ensures s[i] != '\0' {
      assert IsDigit(b, s[..n][i]);
    }
    CStringUpTo(s, n);
  }

  /** The two printers differ in nothing but the base and the digit table. */
  method Print(b: nat, value: int) returns (s: string)
    requires Base(b) && 0 <= value <= INT_MAX
    ensures s == Numeral(b, value)
  {
    var result := new char[100];
    var n := WriteDigits(b, value, result);
    ghost var digits := result[..n];
    result[n] := '\0';
    assert result[..n] == digits;
    Invert(result, n);
    assert result[n..][0] == result[n];
    assert result[..][n] == '\0' && result[..][..n] == result[..n] == Numeral(b, value);
    NumeralEndsAtZero(b, value, result[..], n);
    s := CString(result[..]);
  }

  method LexicalCast(value: int) returns (s: string)
    requires 0 <= value <= INT_MAX
    ensures s == Numeral(10, value)
  {
    s := Print(10, value);
  }

  method LexicalCastHex(value: int) returns (s: string)
    requires 0 <= value <= INT_MAX
    ensures s == Numeral(16, value)
  {
    s := Print(16, value);
  }

  // ---- where the loop leaves the digit table -------------------------------------------------

  /** Division as the source's language defines it: towards zero. */
  function Quotient(b: nat, v: int): (q: int)
    requires Base(b)
    ensures v >= 0 ==> 0 <= q && 2 * q <= v && 0 <= v - Times(b, q) < b
    ensures v < 0 ==> q <= 0 && 2 * q >= v && -(b as int) < v - Times(b, q) <= 0
  {
    if v >= 0 then Div(b, v) else -(Div(b, -v) as int)
  }

  /** The low 32 bits of a long, as a signed int. */
  function ToInt(v: int): (i: int)
    ensures -INT_MAX - 1 <= i <= INT_MAX
  {
    var low := v % 0x1_0000_0000;
    if low <= INT_MAX then low else low - 0x1_0000_0000
  }

  /** Every digit the loop looks up lies in the table. */
  predicate StaysInTable(b: nat, value: int)
    requires Base(b)
    decreases if value >= 0 then value else -value
  {
    var rest := Quotient(b, value);
    && 0 <= ToInt(value) - Times(b, rest) < b
    && (rest == 0 || StaysInTable(b, rest))
  }

  lemma ToIntOutside(v: int)
    requires v > INT_MAX || v < 0
    ensures v < -INT_MAX - 1 ==> ToInt(v) > v + INT_MAX
    ensures -INT_MAX - 1 <= v < 0 ==> ToInt(v) == v
    ensures v > INT_MAX ==> ToInt(v) <= v - 0x1_0000_0000
  {
    var k := v / 0x1_0000_0000;
    assert v == k * 0x1_0000_0000 + v % 0x1_0000_0000;
  }

  /** For every value of the parameter's type: the digit loop reads within its table exactly for the
      values from zero to the largest int. */
  lemma {:induction false} TableExactly(b: nat, value: int)
    requires Base(b) && -LONG_MAX - 1 <= value <= LONG_MAX
    ensures StaysInTable(b, value) <==> 0 <= value <= INT_MAX
    decreases if value >= 0 then value else -value
  {
    var rest := Quotient(b, value);
    if rest != 0 {
      TableExactly(b, rest);
    }
    if 0 <= value <= INT_MAX {
      assert ToInt(value) == value;
    } else {
      ToIntOutside(value);
    }
  }
}
