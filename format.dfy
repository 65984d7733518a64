/** assets/js/script.js: formatNumber, formatCurrency, calculateMileage and
    Toast.getIcon. A number is represented by the integer toFixed(decimals)
    rounds it to, counted in units of 10^-decimals; binary floating point is
    not modelled. */
module Format {
  import opened Php
  import Config

  // ---------------------------------------------------------------- toFixed

  function Pow10(d: nat): (p: nat)
    ensures p >= 1
  {
    if d == 0 then 1 else 10 * Pow10(d - 1)
  }

  function Zeros(k: nat): (z: string)
    ensures |z| == k && forall i :: 0 <= i < k ==> z[i] == '0'
  {
    if k == 0 then "" else "0" + Zeros(k - 1)
  }

  /** Leading zeros do not change a numeral's value. */
  lemma {:induction false} LeadingZeros(k: nat, s: string)
    requires AllDigits(s)
    ensures AllDigits(Zeros(k) + s) && DigitsValue(Zeros(k) + s) == DigitsValue(s)
  {
    var t := Zeros(k) + s;
    if s == [] {
      assert t == Zeros(k);
      ZerosValue(k);
    } else {
      LeadingZeros(k, s[..|s| - 1]);
      assert t[..|t| - 1] == Zeros(k) + s[..|s| - 1];
    }
  }

  lemma {:induction false} ZerosValue(k: nat)
    ensures AllDigits(Zeros(k)) && DigitsValue(Zeros(k)) == 0
  {
    if k > 0 {
      ZerosValue(k - 1);
      assert Zeros(k)[..k - 1] == Zeros(k - 1);
    }
  }

  /** A number below 10^d prints in at most d digits. */
  lemma {:induction false} ShortNumeral(n: nat, d: nat)
    requires d >= 1 && n < Pow10(d)
    ensures |NatToString(n)| <= d
  {
    if n >= 10 {
      assert Pow10(d) == 10 * Pow10(d - 1);
      ShortNumeral(n / 10, d - 1);
    }
  }

  /** A magnitude m counted in 10^-d units, as whole units and the rest. */
  function Split(m: nat, d: nat): (r: (nat, nat))
    ensures r.0 * Pow10(d) + r.1 == m && r.1 < Pow10(d)
  {
    var p := Pow10(d);
    DivMod(m, p);
    (m / p, m % p)
  }

  lemma DivMod(m: nat, p: nat)
    requires p >= 1
    ensures m / p >= 0 && (m / p) * p + m % p == m && 0 <= m % p < p
  {
  }

  /** The digits before the point. */
  function IntDigits(m: nat, d: nat): (r: string)
    ensures AllDigits(r) && |r| > 0 && DigitsValue(r) == Split(m, d).0
  {
    NatToString(Split(m, d).0)
  }

  /** The d digits after the point. */
  function FracDigits(m: nat, d: nat): (r: string)
    requires d >= 1
    ensures AllDigits(r) && |r| == d && DigitsValue(r) == Split(m, d).1
  {
    var f := Split(m, d).1;
    var s := NatToString(f);
    ShortNumeral(f, d);
    LeadingZeros(d - |s|, s);
    if |s| >= d then s else Zeros(d - |s|) + s
  }

  /** Number.prototype.toFixed(d) of the value n·10^-d: a minus sign for a
      negative value, the whole part, and for d > 0 a point and exactly d
      digits. */
  function ToFixed(n: int, d: nat): (r: string)
    ensures forall i :: 0 <= i < |r| ==> IsDigit(r[i]) || r[i] == '-' || r[i] == '.'
  {
    var m := if n < 0 then -n else n;
    Sign(n) + IntDigits(m, d) + (if d == 0 then "" else "." + FracDigits(m, d))
  }

  function Sign(n: int): string { if n < 0 then "-" else "" }

  /** Reading the printed string back: a leading '-' exactly for a negative
      value, the point d characters from the end, and the digits around it
      giving the magnitude as whole part times 10^d plus the fraction. */
  lemma ToFixedReadsBack(n: int, d: nat)
    requires d >= 1
    ensures var s := ToFixed(n, d); var k := |s| - d - 1;
      var m := if n < 0 then -n else n;
      |Sign(n)| < k && s[k] == '.' &&
      (s[0] == '-' <==> n < 0) &&
      DigitsValue(s[|Sign(n)|..k]) * Pow10(d) + DigitsValue(s[k + 1..]) == m
  {
    var m := if n < 0 then -n else n;
    var sign, whole, frac := Sign(n), IntDigits(m, d), FracDigits(m, d);
    var s := ToFixed(n, d);
    assert s == sign + whole + "." + frac;
    var k := |s| - d - 1;
    assert k == |sign| + |whole|;
    assert s[|sign|..k] == whole;
    assert s[k + 1..] == frac;
    assert whole[0] != '-';
  }

  // ---------------------------------------------------------------- the regex

  /** `\w`: ASCII letters, digits and underscore. */
  predicate IsWordChar(c: char) { IsAlnum(c) || c == '_' }

  /** Length of the run of digits starting at p. */
  function DigitRun(s: string, p: nat): (k: nat)
    requires p <= |s|
    ensures p + k <= |s|
    ensures forall i :: p <= i < p + k ==> IsDigit(s[i])
    ensures p + k == |s| || !IsDigit(s[p + k])
    decreases |s| - p
  {
    if p < |s| && IsDigit(s[p]) then 1 + DigitRun(s, p + 1) else 0
  }

  /** Where `/\B(?=(\d{3})+(?!\d))/` matches, before character p: not at a
      word boundary, and followed by a whole number (at least one) of groups
      of three digits and then a non-digit or the end. */
  predicate CommaBefore(s: string, p: nat)
    requires p < |s|
  {
    p > 0 && IsWordChar(s[p - 1]) && DigitRun(s, p) >= 3 && DigitRun(s, p) % 3 == 0
  }

  /** `.replace(regex, ",")` with the global flag, from position i on: a
      comma before every matching position of the original string. */
  function InsertCommas(s: string, i: nat): (r: string)
    requires i <= |s|
    decreases |s| - i
  {
    if i == |s| then "" else (if CommaBefore(s, i) then "," else "") + [s[i]] + InsertCommas(s, i + 1)
  }

  /** formatNumber(number, decimals) as written. */
  function FormatNumber(n: int, d: nat): string {
    InsertCommas(ToFixed(n, d), 0)
  }

  predicate NoCommas(s: string) { forall i :: 0 <= i < |s| ==> s[i] != ',' }

  /** Deletes every comma. */
  function RemoveCommas(t: string): string {
    if t == [] then "" else (if t[0] == ',' then "" else [t[0]]) + RemoveCommas(t[1..])
  }

  /** One step of a scan that emits an optional comma and then a character. */
  lemma RemoveCommasStep(c: string, x: char, rest: string)
    requires c == "" || c == ","
    requires x != ','
    ensures RemoveCommas(c + [x] + rest) == [x] + RemoveCommas(rest)
  {
    if c == "," {
      assert (c + [x] + rest)[1..] == [x] + rest;
    } else {
      assert c + [x] + rest == [x] + rest;
    }
    assert ([x] + rest)[1..] == rest;
  }

  lemma {:induction false} RemoveCommasInserted(s: string, i: nat)
    requires i <= |s| && NoCommas(s)
    ensures RemoveCommas(InsertCommas(s, i)) == s[i..]
    decreases |s| - i
  {
    if i < |s| {
      RemoveCommasInserted(s, i + 1);
      RemoveCommasStep(if CommaBefore(s, i) then "," else "", s[i], InsertCommas(s, i + 1));
      assert s[i..] == [s[i]] + s[i + 1..];
    }
  }

  /** formatNumber only inserts commas: removing them gives the toFixed string back. */
  lemma FormatNumberOnlyAddsCommas(n: int, d: nat)
    ensures RemoveCommas(FormatNumber(n, d)) == ToFixed(n, d)
  {
    RemoveCommasInserted(ToFixed(n, d), 0);
  }

  // ---------------------------------------------------------------- grouping in threes

  /** A run of digits with a comma before every position that has a positive
      multiple of three digits after it (scanning from position j). */
  function GroupFrom(digits: string, j: nat): string
    requires j <= |digits|
    decreases |digits| - j
  {
    if j == |digits| then "" else Sep(|digits|, j) + [digits[j]] + GroupFrom(digits, j + 1)
  }

  /** A comma before position j of a run of `len` digits: a positive
      multiple of three digits follows it. */
  function Sep(len: nat, j: nat): string {
    if j > 0 && (len - j) % 3 == 0 then "," else ""
  }

  /** Grouping in threes from the right, the way a thousands separator works. */
  function Group(digits: string): (r: string)
    ensures |digits| <= 3 ==> r == digits
    decreases |digits|
  {
    if |digits| <= 3 then digits else Group(digits[..|digits| - 3]) + "," + digits[|digits| - 3..]
  }

  lemma {:induction false} GroupFromShort(digits: string, j: nat)
    requires j <= |digits| <= 3
    ensures GroupFrom(digits, j) == digits[j..]
    decreases |digits| - j
  {
    if j < |digits| {
      GroupFromShort(digits, j + 1);
      assert digits[j..] == [digits[j]] + digits[j + 1..];
    }
  }

  lemma {:induction false} LastThree(digits: string)
    requires |digits| > 3
    ensures GroupFrom(digits, |digits| - 3) == "," + digits[|digits| - 3..]
  {
    var n := |digits|;
    var a, b, c := digits[n - 3], digits[n - 2], digits[n - 1];
    assert GroupFrom(digits, n - 1) == [c];
    assert GroupFrom(digits, n - 2) == [b, c];
    assert GroupFrom(digits, n - 3) == [',', a, b, c];
    assert digits[n - 3..] == [a, b, c];
  }

  lemma {:induction false} GroupStep(digits: string, head: string, j: nat, end: string)
    requires j < |head| && |digits| == |head| + 3 && head == digits[..|head|]
    requires GroupFrom(digits, j + 1) == GroupFrom(head, j + 1) + end
    ensures GroupFrom(digits, j) == GroupFrom(head, j) + end
  {
    assert Sep(|digits|, j) == Sep(|head|, j);
    assert head[j] == digits[j];
  }

  /** Scanning a run that is three digits longer: the same commas, then a
      comma and the last three digits. */
  lemma {:induction false} GroupFromSplit(digits: string, head: string, j: nat)
    requires |digits| > 3 && head == digits[..|digits| - 3] && j <= |head|
    ensures GroupFrom(digits, j) == GroupFrom(head, j) + ("," + digits[|head|..])
    decreases |head| - j
  {
    if j == |head| {
      LastThree(digits);
    } else {
      GroupFromSplit(digits, head, j + 1);
      GroupStep(digits, head, j, "," + digits[|head|..]);
    }
  }

  lemma GroupUnfold(digits: string, head: string)
    requires |digits| > 3 && head == digits[..|digits| - 3]
    ensures Group(digits) == Group(head) + ("," + digits[|head|..])
  {
  }

  /** The left-to-right scan and the right-to-left grouping agree. */
  lemma {:induction false} GroupFromIsGroup(digits: string)
    ensures GroupFrom(digits, 0) == Group(digits)
    decreases |digits|
  {
    if |digits| <= 3 {
      GroupFromShort(digits, 0);
    } else {
      var head := digits[..|digits| - 3];
      GroupFromSplit(digits, head, 0);
      GroupFromIsGroup(head);
      GroupUnfold(digits, head);
    }
  }

  /** A maximal run of digits at s[a..a+|digits|] that does not follow a word
      character. */
  predicate RunAt(s: string, a: nat, digits: string) {
    a + |digits| <= |s| && s[a..a + |digits|] == digits && AllDigits(digits) &&
    (a + |digits| == |s| || !IsDigit(s[a + |digits|])) &&
    (a == 0 || !IsWordChar(s[a - 1]))
  }

  /** Every character of the run from j on is a digit. */
  lemma RunDigits(s: string, a: nat, digits: string, j: nat)
    requires RunAt(s, a, digits) && a <= j <= a + |digits|
    ensures forall i :: j <= i < a + |digits| ==> IsDigit(s[i])
  {
    forall i | j <= i < a + |digits| ensures IsDigit(s[i]) {
      assert s[i] == s[a..a + |digits|][i - a];
    }
  }

  /** At position j of the run, CommaBefore and Sep agree. */
  lemma RunSep(s: string, a: nat, digits: string, j: nat)
    requires RunAt(s, a, digits) && a <= j < a + |digits|
    ensures (if CommaBefore(s, j) then "," else "") == Sep(|digits|, j - a)
    ensures s[j] == digits[j - a]
  {
    RunDigits(s, a, digits, j);
    RunLength(s, j, a + |digits|);
    assert s[j] == s[a..a + |digits|][j - a];
    if j > a {
      assert s[j - 1] == s[a..a + |digits|][j - 1 - a];
    }
  }

  lemma RunStep(s: string, a: nat, digits: string, j: nat, after: string)
    requires RunAt(s, a, digits) && a <= j < a + |digits|
    requires InsertCommas(s, j + 1) == GroupFrom(digits, j + 1 - a) + after
    ensures InsertCommas(s, j) == GroupFrom(digits, j - a) + after
  {
    RunSep(s, a, digits, j);
  }

  /** Inside such a run the regex places commas exactly as the scan of
      GroupFrom does. */
  lemma {:induction false} RunCommas(s: string, a: nat, digits: string, j: nat)
    requires RunAt(s, a, digits) && a <= j <= a + |digits|
    ensures InsertCommas(s, j) == GroupFrom(digits, j - a) + InsertCommas(s, a + |digits|)
    decreases a + |digits| - j
  {
    if j < a + |digits| {
      RunCommas(s, a, digits, j + 1);
      RunStep(s, a, digits, j, InsertCommas(s, a + |digits|));
    }
  }

  /** So the run comes out grouped in threes. */
  lemma RunGrouped(s: string, a: nat, digits: string)
    requires RunAt(s, a, digits)
    ensures InsertCommas(s, a) == Group(digits) + InsertCommas(s, a + |digits|)
  {
    RunCommas(s, a, digits, a);
    GroupFromIsGroup(digits);
  }

  lemma {:induction false} RunLength(s: string, p: nat, b: nat)
    requires p <= b <= |s|
    requires forall i :: p <= i < b ==> IsDigit(s[i])
    requires b == |s| || !IsDigit(s[b])
    ensures DigitRun(s, p) == b - p
    decreases b - p
  {
    if p < b {
      RunLength(s, p + 1, b);
    }
  }

  /** Neither a sign nor a point is preceded by a comma. */
  lemma NoCommaBefore(s: string, p: nat)
    requires p < |s| && !IsDigit(s[p])
    ensures InsertCommas(s, p) == [s[p]] + InsertCommas(s, p + 1)
  {
    assert DigitRun(s, p) == 0;
  }

  lemma PointedRuns(sign: string, whole: string, frac: string)
    requires sign == "" || sign == "-"
    requires AllDigits(whole) && AllDigits(frac)
    ensures var s := sign + whole + "." + frac;
      RunAt(s, |sign|, whole) && s[|sign| + |whole|] == '.' && RunAt(s, |sign| + |whole| + 1, frac) &&
      (sign == "-" ==> s[0] == '-')
  {
    var s := sign + whole + "." + frac;
    var b := |sign| + |whole|;
    assert s[|sign|..b] == whole;
    assert s[b + 1..] == frac;
  }

  /** The regex on a toFixed-shaped string with a fraction. */
  lemma PointedShape(sign: string, whole: string, frac: string)
    requires sign == "" || sign == "-"
    requires AllDigits(whole) && AllDigits(frac)
    ensures InsertCommas(sign + whole + "." + frac, 0) == sign + Group(whole) + "." + Group(frac)
  {
    PointedRuns(sign, whole, frac);
    PointedCommas(sign + whole + "." + frac, sign, whole, frac);
  }

  /** The same, for any string laid out that way. */
  lemma PointedCommas(s: string, sign: string, whole: string, frac: string)
    requires sign == "" || (sign == "-" && |s| > 0 && s[0] == '-')
    requires RunAt(s, |sign|, whole) && |sign| + |whole| < |s| && s[|sign| + |whole|] == '.'
    requires RunAt(s, |sign| + |whole| + 1, frac) && |s| == |sign| + |whole| + 1 + |frac|
    ensures InsertCommas(s, 0) == sign + Group(whole) + "." + Group(frac)
  {
    var b := |sign| + |whole|;
    PointTail(s, b, frac);
    RunGrouped(s, |sign|, whole);
    SignHead(s, sign);
    Reassociate(InsertCommas(s, 0), InsertCommas(s, |sign|), InsertCommas(s, b), sign, Group(whole), Group(frac));
  }

  lemma Reassociate(x0: string, x1: string, x2: string, sign: string, g: string, t: string)
    requires x0 == sign + x1 && x1 == g + x2 && x2 == "." + t
    ensures x0 == sign + g + "." + t
  {
  }

  /** From the point on: the point, then the grouped fraction. */
  lemma PointTail(s: string, b: nat, frac: string)
    requires b < |s| && s[b] == '.' && RunAt(s, b + 1, frac) && |s| == b + 1 + |frac|
    ensures InsertCommas(s, b) == "." + Group(frac)
  {
    NoCommaBefore(s, b);
    RunGrouped(s, b + 1, frac);
  }

  /** The sign is copied without a comma. */
  lemma SignHead(s: string, sign: string)
    requires sign == "" || (sign == "-" && |s| > 0 && s[0] == '-')
    ensures InsertCommas(s, 0) == sign + InsertCommas(s, |sign|)
  {
    if sign == "-" {
      NoCommaBefore(s, 0);
    }
  }

  /** The regex on a toFixed-shaped string without a fraction. */
  lemma WholeShape(sign: string, whole: string)
    requires sign == "" || sign == "-"
    requires AllDigits(whole)
    ensures InsertCommas(sign + whole, 0) == sign + Group(whole)
  {
    var s := sign + whole;
    assert RunAt(s, |sign|, whole) by {
      assert s[|sign|..] == whole;
    }
    WholeCommas(s, sign, whole);
  }

  lemma WholeCommas(s: string, sign: string, whole: string)
    requires sign == "" || (sign == "-" && |s| > 0 && s[0] == '-')
    requires RunAt(s, |sign|, whole) && |s| == |sign| + |whole|
    ensures InsertCommas(s, 0) == sign + Group(whole)
  {
    RunGrouped(s, |sign|, whole);
    SignHead(s, sign);
  }

  /** What formatNumber prints: the sign, the whole part grouped in threes,
      and for d > 0 the point and the fraction digits, which the regex groups
      in threes as well. */
  lemma FormatNumberShape(n: int, d: nat)
    ensures var m := if n < 0 then -n else n;
      FormatNumber(n, d) ==
        Sign(n) + Group(IntDigits(m, d)) + (if d == 0 then "" else "." + Group(FracDigits(m, d)))
  {
    var m := if n < 0 then -n else n;
    if d == 0 {
      assert ToFixed(n, d) == Sign(n) + IntDigits(m, d);
      WholeShape(Sign(n), IntDigits(m, d));
    } else {
      assert ToFixed(n, d) == Sign(n) + IntDigits(m, d) + "." + FracDigits(m, d);
      PointedShape(Sign(n), IntDigits(m, d), FracDigits(m, d));
    }
  }

  // ---------------------------------------------------------------- the fraction digits

  /** formatNumber as its name promises: only the whole part is grouped,
      the fraction digits are printed as toFixed prints them. */
  function FormatNumberIntended(n: int, d: nat): (r: string)
    ensures RemoveCommas(r) == ToFixed(n, d)
    ensures d > 0 ==> |r| > d && r[|r| - d - 1..] == "." + FracDigits(if n < 0 then -n else n, d)
  {
    var m := if n < 0 then -n else n;
    var whole := IntDigits(m, d);
    var rest := if d == 0 then "" else "." + FracDigits(m, d);
    WholeGroupedOnly(Sign(n), whole, rest);
    Sign(n) + Group(whole) + rest
  }

  lemma WholeGroupedOnly(sign: string, whole: string, rest: string)
    requires NoCommas(sign) && NoCommas(whole) && NoCommas(rest)
    ensures RemoveCommas(sign + Group(whole) + rest) == sign + whole + rest
  {
    GroupOnlyAddsCommas(whole);
    NoCommaFixed(sign);
    NoCommaFixed(rest);
    RemoveCommasAppend(sign, Group(whole));
    RemoveCommasAppend(sign + Group(whole), rest);
  }

  lemma {:induction false} RemoveCommasAppend(a: string, b: string)
    ensures RemoveCommas(a + b) == RemoveCommas(a) + RemoveCommas(b)
    decreases |a|
  {
    if a == [] {
      assert a + b == b;
    } else {
      var head := if a[0] == ',' then "" else [a[0]];
      RemoveCommasAppend(a[1..], b);
      assert (a + b)[0] == a[0];
      assert (a + b)[1..] == a[1..] + b;
      assert RemoveCommas(a + b) == head + RemoveCommas(a[1..] + b);
      assert RemoveCommas(a) == head + RemoveCommas(a[1..]);
    }
  }

  lemma {:induction false} NoCommaFixed(t: string)
    requires NoCommas(t)
    ensures RemoveCommas(t) == t
  {
    if t != [] {
      NoCommaFixed(t[1..]);
      assert t == [t[0]] + t[1..];
    }
  }

  /** With up to three decimals the regex never reaches the fraction, so the
      code as written and the intended grouping agree. */
  lemma UpToThreeDecimalsAgree(n: int, d: nat)
    requires d <= 3
    ensures FormatNumber(n, d) == FormatNumberIntended(n, d)
  {
    FormatNumberShape(n, d);
  }

  /** Grouping only lengthens, and a run of more than three digits gets a comma. */
  lemma {:induction false} GroupLength(digits: string)
    ensures |Group(digits)| >= |digits|
    ensures |digits| > 3 ==> |Group(digits)| > |digits| && !NoCommas(Group(digits))
    decreases |digits|
  {
    if |digits| > 3 {
      var head := digits[..|digits| - 3];
      GroupLength(head);
      GroupUnfold(digits, head);
      assert Group(digits)[|Group(head)|] == ',';
    }
  }

  /** With four or more decimals the regex also puts commas into the
      fraction, so formatNumber(1234.5678, 4) prints "1,234.5,678" where the
      intended formatting prints "1,234.5678". */
  lemma FractionGetsCommas(n: int, d: nat)
    requires d >= 4
    ensures var m := if n < 0 then -n else n;
      FormatNumber(n, d) == Sign(n) + Group(IntDigits(m, d)) + "." + Group(FracDigits(m, d)) &&
      !NoCommas(Group(FracDigits(m, d)))
    ensures FormatNumber(n, d) != FormatNumberIntended(n, d)
  {
    var m := if n < 0 then -n else n;
    FormatNumberShape(n, d);
    GroupLength(FracDigits(m, d));
  }

  lemma {:induction false} RemoveCommasGrouped(digits: string, j: nat)
    requires j <= |digits| && NoCommas(digits)
    ensures RemoveCommas(GroupFrom(digits, j)) == digits[j..]
    decreases |digits| - j
  {
    if j < |digits| {
      RemoveCommasGrouped(digits, j + 1);
      RemoveCommasStep(Sep(|digits|, j), digits[j], GroupFrom(digits, j + 1));
      assert digits[j..] == [digits[j]] + digits[j + 1..];
    }
  }

  /** The intended formatting also only adds commas. */
  lemma GroupOnlyAddsCommas(digits: string)
    requires NoCommas(digits)
    ensures RemoveCommas(Group(digits)) == digits
  {
    RemoveCommasGrouped(digits, 0);
    GroupFromIsGroup(digits);
  }

  // ---------------------------------------------------------------- formatCurrency

  /** The currency prefix exactly as the file spells it: the rupee sign's
      UTF-8 bytes read as Windows-1252 ("â‚¹"). */
  const RUPEE_PREFIX: string := "\U{00E2}\U{201A}\U{00B9}"

  /** formatCurrency(amount) for an amount in hundredths: the prefix, then the
      amount with two decimals and its whole part grouped in threes. */
  function FormatCurrency(hundredths: int): (r: string)
    ensures |r| >= 3 && r[..3] == RUPEE_PREFIX
    ensures r[3..] == FormatNumber(hundredths, 2)
    ensures RemoveCommas(r[3..]) == ToFixed(hundredths, 2)
  {
    UpToThreeDecimalsAgree(hundredths, 2);
    FormatNumberOnlyAddsCommas(hundredths, 2);
    var r := RUPEE_PREFIX + FormatNumberIntended(hundredths, 2);
    assert r[3..] == FormatNumberIntended(hundredths, 2);
    r
  }

  // ---------------------------------------------------------------- calculateMileage

  /** What the JavaScript calculateMileage returns: the number 0, or a string. */
  datatype JsMileage = Zero | Fixed(text: string)

  /** calculateMileage(distance, fuel): 0 when fuel <= 0, otherwise
      (distance / fuel).toFixed(2); toFixed rounds halves away from zero. */
  function CalculateMileageJs(distance: real, fuel: real): (r: JsMileage)
    ensures r.Zero? <==> fuel <= 0.0
  {
    if fuel <= 0.0 then Zero else Fixed(ToFixed(Config.RoundHundredths(distance / fuel), 2))
  }

  /** The browser and the server agree: the JavaScript text is the PHP
      calculateMileage value printed with two decimals. */
  lemma MileageAgreesWithServer(distance: real, fuel: real)
    ensures fuel > 0.0 ==> CalculateMileageJs(distance, fuel) == Fixed(ToFixed(Config.CalculateMileage(distance, fuel), 2))
    ensures fuel <= 0.0 ==> CalculateMileageJs(distance, fuel) == Zero && Config.CalculateMileage(distance, fuel) == 0
  {
  }

  // ---------------------------------------------------------------- Toast.getIcon

  /** Toast.getIcon(type): the icon of a known type, 'info-circle' otherwise. */
  function GetIcon(kind: string): (icon: string)
    ensures kind == "success" ==> icon == "check-circle"
    ensures kind == "error" ==> icon == "exclamation-circle"
    ensures kind == "warning" ==> icon == "exclamation-triangle"
    ensures kind !in {"success", "error", "warning"} ==> icon == "info-circle"
  {
    if kind == "success" then "check-circle"
    else if kind == "error" then "exclamation-circle"
    else if kind == "warning" then "exclamation-triangle"
    else "info-circle"
  }
}
