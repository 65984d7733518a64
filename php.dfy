/** PHP runtime helpers shared by every page of MotoTrack: SQL NULL as
    Option, trim(), empty() on form strings, ASCII character classes and
    integer-to-decimal-string conversion. */
module Php {

  /** SQL NULL and absent `$_POST` / `$_SESSION` entries. */
  datatype Option<+T> = None | Some(value: T) {
    function GetOr(default: T): T {
      match this
      case Some(v) => v
      case None => default
    }
  }

  // ---------------------------------------------------------------- chars

  /** The characters PHP's trim() strips by default: space, tab, LF, CR, NUL, vertical tab. */
  predicate IsTrimChar(c: char) {
    c == ' ' || c == '\t' || c == '\n' || c == '\r' || c == '\0' || c == '\U{000B}'
  }

  predicate IsDigit(c: char) { '0' <= c <= '9' }
  predicate IsUpper(c: char) { 'A' <= c <= 'Z' }
  predicate IsLower(c: char) { 'a' <= c <= 'z' }
  predicate IsAlpha(c: char) { IsUpper(c) || IsLower(c) }
  predicate IsAlnum(c: char) { IsAlpha(c) || IsDigit(c) }

  predicate AllDigits(s: string) { forall i :: 0 <= i < |s| ==> IsDigit(s[i]) }

  /** PHP strtolower on ASCII letters; every other character is kept. */
  function LowerChar(c: char): (r: char)
    ensures IsUpper(c) ==> IsLower(r) && r as int == c as int + 32
    ensures !IsUpper(c) ==> r == c
  {
    if IsUpper(c) then (c as int + 32) as char else c
  }

  function ToLower(s: string): (r: string)
    ensures |r| == |s|
    ensures forall i :: 0 <= i < |s| ==> r[i] == LowerChar(s[i])
  {
    if s == [] then [] else [LowerChar(s[0])] + ToLower(s[1..])
  }

  // ---------------------------------------------------------------- trim

  /** Drops the leading trim characters: the result is the longest suffix of
      `s` that does not start with one, and everything dropped is one. */
  function TrimLeft(s: string): (r: string)
    ensures |r| <= |s| && r == s[|s| - |r|..]
    ensures r == [] || !IsTrimChar(r[0])
    ensures forall k :: 0 <= k < |s| - |r| ==> IsTrimChar(s[k])
  {
    if s == [] || !IsTrimChar(s[0]) then s else TrimLeft(s[1..])
  }

  /** Drops the trailing trim characters. */
  function TrimRight(s: string): (r: string)
    ensures |r| <= |s| && r == s[..|r|]
    ensures r == [] || !IsTrimChar(r[|r| - 1])
    ensures forall k :: |r| <= k < |s| ==> IsTrimChar(s[k])
  {
    if s == [] || !IsTrimChar(s[|s| - 1]) then s else TrimRight(s[..|s| - 1])
  }

  /** PHP trim(): what is left of `s` once TrimLeft has dropped the leading
      trim characters and the trailing ones are dropped too; it neither starts
      nor ends with a trim character. */
  function Trim(s: string): (r: string)
    ensures |r| <= |TrimLeft(s)| && r == s[|s| - |TrimLeft(s)|..][..|r|]
    ensures forall k :: |s| - |TrimLeft(s)| + |r| <= k < |s| ==> IsTrimChar(s[k])
    ensures r == [] || (!IsTrimChar(r[0]) && !IsTrimChar(r[|r| - 1]))
  {
    var l := TrimLeft(s);
    var r := TrimRight(l);
    assert l == s[|s| - |l|..];
    forall k | |s| - |l| + |r| <= k < |s| ensures IsTrimChar(s[k]) {
      assert s[k] == l[k - (|s| - |l|)];
    }
    r
  }

  /** A string with no trim character at either end is its own trim. */
  lemma {:induction false} TrimOfTrimmed(s: string)
    requires s == [] || (!IsTrimChar(s[0]) && !IsTrimChar(s[|s| - 1]))
    ensures Trim(s) == s
  {
    assert TrimLeft(s) == s;
    assert TrimRight(s) == s;
  }

  predicate AllTrimChars(s: string) { forall i :: 0 <= i < |s| ==> IsTrimChar(s[i]) }

  /** Leading blanks in front of text that does not start with one are dropped, and only they. */
  lemma {:induction false} TrimLeftPadded(ws: string, s: string)
    requires AllTrimChars(ws)
    requires s == [] || !IsTrimChar(s[0])
    ensures TrimLeft(ws + s) == s
  {
    if ws == [] {
      assert ws + s == s;
    } else {
      assert (ws + s)[1..] == ws[1..] + s;
      TrimLeftPadded(ws[1..], s);
    }
  }

  /** Trailing blanks after text that does not end with one are dropped, and only they. */
  lemma {:induction false} TrimRightPadded(s: string, ws: string)
    requires AllTrimChars(ws)
    requires s == [] || !IsTrimChar(s[|s| - 1])
    ensures TrimRight(s + ws) == s
  {
    if ws == [] {
      assert s + ws == s;
    } else {
      assert (s + ws)[..|s + ws| - 1] == s + ws[..|ws| - 1];
      TrimRightPadded(s, ws[..|ws| - 1]);
    }
  }

  /** trim() of text padded with blanks on both sides is the text itself. */
  lemma TrimPadded(ws1: string, s: string, ws2: string)
    requires AllTrimChars(ws1) && AllTrimChars(ws2)
    requires s == [] || (!IsTrimChar(s[0]) && !IsTrimChar(s[|s| - 1]))
    ensures Trim(ws1 + s + ws2) == s
  {
    if s == [] {
      assert ws1 + s + ws2 == (ws1 + ws2) + [];
      TrimLeftPadded(ws1 + ws2, []);
    } else {
      assert ws1 + s + ws2 == ws1 + (s + ws2);
      TrimLeftPadded(ws1, s + ws2);
      TrimRightPadded(s, ws2);
    }
  }

  // ---------------------------------------------------------------- empty()

  /** PHP empty() on a string: only "" and "0" are empty. */
  predicate IsEmpty(s: string) { s == "" || s == "0" }

  /** PHP empty() on a value that may be absent (null). */
  predicate IsEmptyOpt(s: Option<string>) { s.None? || IsEmpty(s.value) }

  // ---------------------------------------------------------------- strlen()

  predicate IsAscii(c: char) { c as int < 0x80 }

  /** The number of bytes UTF-8 spends on one character. */
  function Utf8Width(c: char): nat {
    if c as int < 0x80 then 1 else if c as int < 0x800 then 2 else if c as int < 0x1_0000 then 3 else 4
  }

  /** PHP strlen() of UTF-8 text: its length in bytes, which exceeds its
      length in characters exactly when it holds a non-ASCII character. */
  function StrLen(s: string): (n: nat)
    ensures |s| <= n <= 4 * |s|
    ensures n == |s| <==> forall i :: 0 <= i < |s| ==> IsAscii(s[i])
  {
    if s == [] then 0
    else
      var n := Utf8Width(s[0]) + StrLen(s[1..]);
      assert forall i :: 1 <= i < |s| ==> s[i] == s[1..][i - 1];
      n
  }

  /** Trimming drops only ASCII blanks: text whose trimmed form is ASCII is ASCII. */
  lemma AsciiAroundTrim(s: string)
    requires forall i :: 0 <= i < |Trim(s)| ==> IsAscii(Trim(s)[i])
    ensures forall i :: 0 <= i < |s| ==> IsAscii(s[i])
  {
    var r, a := Trim(s), |s| - |TrimLeft(s)|;
    forall k | 0 <= k < |s| ensures IsAscii(s[k]) {
      if k < a {
        assert IsTrimChar(s[k]);
      } else if k < a + |r| {
        assert s[k] == r[k - a];
      } else {
        assert IsTrimChar(s[k]);
      }
    }
  }

  // ---------------------------------------------------------------- numbers

  function DigitChar(d: nat): (c: char)
    requires d < 10
    ensures IsDigit(c) && c as int - '0' as int == d
  {
    ('0' as int + d) as char
  }

  /** Decimal value of a string of digits. */
  function DigitsValue(s: string): nat
    requires AllDigits(s)
  {
    if s == [] then 0 else DigitsValue(s[..|s| - 1]) * 10 + (s[|s| - 1] as int - '0' as int)
  }

  /** The decimal representation PHP prints for a non-negative integer. */
  function NatToString(n: nat): (r: string)
    ensures |r| > 0 && AllDigits(r)
    ensures |r| > 1 ==> r[0] != '0'
    ensures DigitsValue(r) == n
  {
    if n < 10 then [DigitChar(n)]
    else
      var p := NatToString(n / 10);
      var r := p + [DigitChar(n % 10)];
      assert r[..|r| - 1] == p;
      r
  }

  /** Decimal representation of any integer: a minus sign for negatives. */
  function IntToString(i: int): (r: string)
    ensures |r| > 0
    ensures (r[0] == '-') <==> i < 0
    ensures i >= 0 ==> r == NatToString(i)
    ensures i < 0 ==> r == "-" + NatToString(-i)
  {
    if i < 0 then "-" + NatToString(-i) else NatToString(i)
  }

  /** The decimal representation is injective: distinct numbers print differently. */
  lemma {:induction false} NatToStringInjective(a: nat, b: nat)
    requires NatToString(a) == NatToString(b)
    ensures a == b
  {
    assert DigitsValue(NatToString(a)) == a;
  }

  /** Sum of a sequence of reals (SQL SUM / a PHP accumulator loop). */
  function SumReal(xs: seq<real>): real
  {
    if xs == [] then 0.0 else SumReal(xs[..|xs| - 1]) + xs[|xs| - 1]
  }

  /** Sum of a sequence of integers. */
  function SumInt(xs: seq<int>): int
  {
    if xs == [] then 0 else SumInt(xs[..|xs| - 1]) + xs[|xs| - 1]
  }

  // ---------------------------------------------------------------- WHERE filters

  /** One more row in front of the table: a filter that keeps exactly the
      `keep` rows, each as often as the table holds it, still does so. */
  lemma KeepFirst<T>(x: T, xs: seq<T>, rest: seq<T>, keep: T -> bool)
    requires forall y :: multiset(rest)[y] == if keep(y) then multiset(xs)[y] else 0
    ensures forall y :: multiset(if keep(x) then [x] + rest else rest)[y] ==
                        if keep(y) then multiset([x] + xs)[y] else 0
  {
    assert multiset([x] + xs) == multiset{x} + multiset(xs);
    assert multiset([x] + rest) == multiset{x} + multiset(rest);
  }

  /** The same for one more row at the end of the table. */
  lemma KeepLast<T>(xs: seq<T>, x: T, rest: seq<T>, keep: T -> bool)
    requires forall y :: multiset(rest)[y] == if keep(y) then multiset(xs)[y] else 0
    ensures forall y :: multiset(if keep(x) then rest + [x] else rest)[y] ==
                        if keep(y) then multiset(xs + [x])[y] else 0
  {
    assert multiset(xs + [x]) == multiset(xs) + multiset{x};
    assert multiset(rest + [x]) == multiset(rest) + multiset{x};
  }

  /** Such a filter's result holds exactly the `keep` rows of the table. */
  lemma KeptRows<T>(xs: seq<T>, rest: seq<T>, keep: T -> bool)
    requires forall y :: multiset(rest)[y] == if keep(y) then multiset(xs)[y] else 0
    ensures forall y :: y in rest <==> y in xs && keep(y)
    ensures multiset(rest) <= multiset(xs) && |rest| <= |xs|
  {
    forall y ensures y in rest <==> y in xs && keep(y) {
      assert y in rest <==> multiset(rest)[y] > 0;
      assert y in xs <==> multiset(xs)[y] > 0;
    }
    assert multiset(xs) == multiset(rest) + (multiset(xs) - multiset(rest));
    assert |multiset(rest)| <= |multiset(xs)|;
  }
}
