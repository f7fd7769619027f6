/**
 * String helpers shared by the pipeline scripts and the front-end:
 * single-character replacement (`str.replace` with one-character
 * arguments), substring search, `find`/`rfind`, replacement of every
 * occurrence of a pattern, ASCII lower-casing, Python's whitespace test,
 * decimal rendering of integers and JavaScript's `parseInt` in base 10.
 */
module Text {
  import opened Wrappers

  /** `s` with every `from` replaced by `to`. */
  function ReplaceChar(s: string, from: char, to: char): (r: string)
    ensures |r| == |s|
    ensures forall i :: 0 <= i < |s| ==> r[i] == (if s[i] == from then to else s[i])
  {
    if s == [] then [] else [if s[0] == from then to else s[0]] + ReplaceChar(s[1..], from, to)
  }

  /** `pat` occurs in `s` starting at position `i`. */
  predicate OccursAt(s: string, pat: string, i: nat) {
    i + |pat| <= |s| && s[i..i + |pat|] == pat
  }

  /** Python's `pat in s`. */
  predicate Contains(s: string, pat: string) {
    exists i: nat :: i <= |s| && OccursAt(s, pat, i)
  }

  /** Index of the first occurrence of `pat` in `s`, if any (`str.find`). */
  function FindFrom(s: string, pat: string, from: nat): (r: int)
    requires from <= |s|
    ensures r == -1 || (from <= r <= |s| && OccursAt(s, pat, r))
    ensures r == -1 ==> forall i: nat :: from <= i <= |s| ==> !OccursAt(s, pat, i)
    ensures r != -1 ==> forall i: nat :: from <= i < r ==> !OccursAt(s, pat, i)
    decreases |s| - from
  {
    if OccursAt(s, pat, from) then from
    else if from == |s| then -1
    else FindFrom(s, pat, from + 1)
  }

  function Find(s: string, pat: string): (r: int)
    ensures r == -1 <==> !Contains(s, pat)
    ensures r != -1 ==> 0 <= r <= |s| && OccursAt(s, pat, r)
    ensures r != -1 ==> forall i: nat :: i < r ==> !OccursAt(s, pat, i)
  {
    FindFrom(s, pat, 0)
  }

  /** Index of the last `c` in `s`, or -1 (`str.rfind` with one character). */
  function RFind(s: string, c: char): (r: int)
    ensures -1 <= r < |s|
    ensures r >= 0 ==> s[r] == c
    ensures forall i :: r < i < |s| ==> s[i] != c
  {
    if s == [] then -1
    else if s[|s| - 1] == c then |s| - 1
    else RFind(s[..|s| - 1], c)
  }

  /**
   * Python's `s.replace(pat, rep)` for a non-empty pattern: occurrences
   * are replaced left to right and do not overlap.
   */
  function ReplaceAll(s: string, pat: string, rep: string): string
    requires pat != []
  {
    ReplaceFrom(s, pat, rep, 0)
  }

  /** The replacement applied to the suffix of `s` starting at `i`. */
  function ReplaceFrom(s: string, pat: string, rep: string, i: nat): string
    requires pat != [] && i <= |s|
    decreases |s| - i
  {
    if i + |pat| > |s| then s[i..]
    else if OccursAt(s, pat, i) then rep + ReplaceFrom(s, pat, rep, i + |pat|)
    else [s[i]] + ReplaceFrom(s, pat, rep, i + 1)
  }

  lemma {:induction false} ReplaceFromAbsent(s: string, pat: string, rep: string, i: nat)
    requires pat != [] && i <= |s|
    requires forall j: nat :: i <= j <= |s| ==> !OccursAt(s, pat, j)
    ensures ReplaceFrom(s, pat, rep, i) == s[i..]
    decreases |s| - i
  {
    if i + |pat| <= |s| {
      assert !OccursAt(s, pat, i);
      ReplaceFromAbsent(s, pat, rep, i + 1);
      assert [s[i]] + s[i + 1..] == s[i..];
    }
  }

  /** A string without the pattern is returned as it is. */
  lemma ReplaceAllAbsent(s: string, pat: string, rep: string)
    requires pat != [] && !Contains(s, pat)
    ensures ReplaceAll(s, pat, rep) == s
  {
    ReplaceFromAbsent(s, pat, rep, 0);
  }

  lemma {:induction false} ReplaceFromFirst(s: string, pat: string, rep: string, i: nat, k: nat)
    requires pat != [] && i <= k && k + |pat| <= |s| && OccursAt(s, pat, k)
    requires forall j: nat :: i <= j < k ==> !OccursAt(s, pat, j)
    ensures ReplaceFrom(s, pat, rep, i) == s[i..k] + rep + ReplaceFrom(s, pat, rep, k + |pat|)
    decreases k - i
  {
    if i < k {
      ReplaceFromSkip(s, pat, rep, i);
      ReplaceFromFirst(s, pat, rep, i + 1, k);
      SliceCons(s, i, k);
      ConsThenSplit(ReplaceFrom(s, pat, rep, i), ReplaceFrom(s, pat, rep, i + 1), s[i], s[i + 1..k], s[i..k], rep,
                    ReplaceFrom(s, pat, rep, k + |pat|));
    } else {
      ReplaceFromHit(s, pat, rep, k);
      assert s[i..k] == [];
    }
  }

  /** One character without a match at `i` is copied through. */
  lemma ReplaceFromSkip(s: string, pat: string, rep: string, i: nat)
    requires pat != [] && i + |pat| <= |s| && !OccursAt(s, pat, i)
    ensures ReplaceFrom(s, pat, rep, i) == [s[i]] + ReplaceFrom(s, pat, rep, i + 1)
  {
  }

  lemma SliceCons(s: string, i: nat, k: nat)
    requires i < k <= |s|
    ensures s[i..k] == [s[i]] + s[i + 1..k]
  {
  }

  /** A match at `i` is replaced and the scan resumes after it. */
  lemma ReplaceFromHit(s: string, pat: string, rep: string, i: nat)
    requires pat != [] && OccursAt(s, pat, i)
    ensures ReplaceFrom(s, pat, rep, i) == rep + ReplaceFrom(s, pat, rep, i + |pat|)
  {
  }

  lemma ConsThenSplit(x: string, y: string, c: char, head: string, whole: string, rep: string, tail: string)
    requires x == [c] + y && y == head + rep + tail && whole == [c] + head
    ensures x == whole + rep + tail
  {
  }

  /**
   * The first occurrence is replaced and the rest of the string is
   * processed after it: `s == a + pat + b` with no occurrence starting
   * inside `a` gives `a + rep + ReplaceAll(b)`.
   */
  lemma ReplaceAllFirst(s: string, pat: string, rep: string, k: nat)
    requires pat != [] && k + |pat| <= |s| && OccursAt(s, pat, k)
    requires forall i: nat :: i < k ==> !OccursAt(s, pat, i)
    ensures ReplaceAll(s, pat, rep) == s[..k] + rep + ReplaceFrom(s, pat, rep, k + |pat|)
  {
    ReplaceFromFirst(s, pat, rep, 0, k);
  }

  /** ASCII lower-casing (Python's `str.lower` restricted to A-Z). */
  function Lower(c: char): char {
    if 'A' <= c <= 'Z' then (c as int + 32) as char else c
  }

  function LowerAll(s: string): (r: string)
    ensures |r| == |s|
    ensures forall i :: 0 <= i < |s| ==> r[i] == Lower(s[i])
  {
    if s == [] then [] else [Lower(s[0])] + LowerAll(s[1..])
  }

  /** The characters Python's `str.strip()` removes. */
  predicate IsPythonSpace(c: char) {
    c == ' ' || c == '\t' || c == '\n' || c == '\r' || c == '\U{000B}' || c == '\U{000C}'
    || ('\U{001C}' <= c <= '\U{001F}') || c == '\U{0085}' || c == '\U{00A0}' || c == '\U{1680}'
    || ('\U{2000}' <= c <= '\U{200A}') || c == '\U{2028}' || c == '\U{2029}' || c == '\U{202F}'
    || c == '\U{205F}' || c == '\U{3000}'
  }

  /** `not s.strip()`: the string is empty or whitespace only. */
  predicate IsBlank(s: string) {
    forall i :: 0 <= i < |s| ==> IsPythonSpace(s[i])
  }

  function DigitChar(d: nat): char
    requires d < 10
  {
    "0123456789"[d]
  }

  /** Decimal rendering of a natural number, as JavaScript prints it. */
  function NatToString(n: nat): string {
    if n < 10 then [DigitChar(n)] else NatToString(n / 10) + [DigitChar(n % 10)]
  }

  /** The rendering is a non-empty run of decimal digits. */
  lemma {:induction false} NatToStringDigits(n: nat)
    ensures |NatToString(n)| > 0
    ensures forall i :: 0 <= i < |NatToString(n)| ==> '0' <= NatToString(n)[i] <= '9'
  {
    if n >= 10 {
      NatToStringDigits(n / 10);
    }
  }

  lemma DigitCharInjective(a: nat, b: nat)
    requires a < 10 && b < 10 && DigitChar(a) == DigitChar(b)
    ensures a == b
  {
  }

  /** Different numbers render differently. */
  lemma {:induction false} NatToStringInjective(m: nat, n: nat)
    requires NatToString(m) == NatToString(n)
    ensures m == n
  {
    var rm, rn := NatToString(m), NatToString(n);
    if m < 10 && n < 10 {
      assert rm[0] == rn[0];
      DigitCharInjective(m, n);
    } else if m >= 10 && n >= 10 {
      var pm, pn := NatToString(m / 10), NatToString(n / 10);
      assert rm == pm + [DigitChar(m % 10)] && rn == pn + [DigitChar(n % 10)];
      assert pm == rm[..|rm| - 1] && pn == rn[..|rn| - 1];
      NatToStringInjective(m / 10, n / 10);
      assert rm[|rm| - 1] == rn[|rn| - 1];
      DigitCharInjective(m % 10, n % 10);
    }
  }

  /** Decimal rendering of an integer, with a leading `-` when negative. */
  function IntToString(n: int): string {
    if n < 0 then "-" + NatToString(-n) else NatToString(n)
  }

  /** The white space and line terminators that `parseInt` skips before a number. */
  predicate IsJsSpace(c: char) {
    c == ' ' || c == '\t' || c == '\n' || c == '\U{B}' || c == '\U{C}' || c == '\r'
    || c == '\U{A0}' || c == '\U{1680}' || ('\U{2000}' <= c <= '\U{200A}') || c == '\U{2028}'
    || c == '\U{2029}' || c == '\U{202F}' || c == '\U{205F}' || c == '\U{3000}' || c == '\U{FEFF}'
  }

  predicate IsDigit(c: char) {
    '0' <= c <= '9'
  }

  /** `s` without its leading white space. */
  function TrimStart(s: string): (r: string)
    ensures |r| <= |s| && r == s[|s| - |r|..]
    ensures r == [] || !IsJsSpace(r[0])
  {
    if |s| > 0 && IsJsSpace(s[0]) then TrimStart(s[1..]) else s
  }

  /** The longest prefix of `s` made of decimal digits. */
  function LeadingDigits(s: string): (r: string)
    ensures |r| <= |s| && r == s[..|r|]
    ensures forall i :: 0 <= i < |r| ==> IsDigit(r[i])
    ensures |r| == |s| || !IsDigit(s[|r|])
  {
    if |s| > 0 && IsDigit(s[0]) then [s[0]] + LeadingDigits(s[1..]) else []
  }

  /** The value of a string of decimal digits. */
  function DigitsValue(ds: string): nat
    requires forall i :: 0 <= i < |ds| ==> IsDigit(ds[i])
  {
    if ds == [] then 0
    else
      assert IsDigit(ds[|ds| - 1]);
      DigitsValue(ds[..|ds| - 1]) * 10 + (ds[|ds| - 1] as int - '0' as int)
  }

  /**
   * `parseInt(s, 10)`: leading white space skipped, an optional sign, then
   * the longest run of digits; None (NaN) when there is no digit.
   */
  function ParseInt(s: string): Option<int> {
    ParseSigned(TrimStart(s))
  }

  /** The part of `parseInt` after the white space: an optional sign, then the digits. */
  function ParseSigned(t: string): Option<int> {
    var negative := |t| > 0 && t[0] == '-';
    var body := if |t| > 0 && (t[0] == '-' || t[0] == '+') then t[1..] else t;
    var ds := LeadingDigits(body);
    if ds == [] then None else Some(if negative then -(DigitsValue(ds) as int) else DigitsValue(ds))
  }

  lemma DigitCharValue(d: nat)
    requires d < 10
    ensures IsDigit(DigitChar(d)) && DigitChar(d) as int - '0' as int == d
  {
    if d == 0 {} else if d == 1 {} else if d == 2 {} else if d == 3 {} else if d == 4 {}
    else if d == 5 {} else if d == 6 {} else if d == 7 {} else if d == 8 {} else {}
  }

  /** Reading back the digits of a number gives the number. */
  lemma {:induction false} DigitsValueOfNat(n: nat)
    ensures |NatToString(n)| > 0 && forall i :: 0 <= i < |NatToString(n)| ==> IsDigit(NatToString(n)[i])
    ensures DigitsValue(NatToString(n)) == n
  {
    var r := NatToString(n);
    NatToStringDigits(n);
    if n < 10 {
      DigitCharValue(n);
      assert r[..0] == [];
    } else {
      DigitsValueOfNat(n / 10);
      DigitCharValue(n % 10);
      assert r[..|r| - 1] == NatToString(n / 10);
    }
  }

  lemma {:induction false} LeadingDigitsOf(ds: string, rest: string)
    requires forall i :: 0 <= i < |ds| ==> IsDigit(ds[i])
    requires rest == [] || !IsDigit(rest[0])
    ensures LeadingDigits(ds + rest) == ds
  {
    if ds != [] {
      LeadingDigitsOf(ds[1..], rest);
      assert (ds + rest)[1..] == ds[1..] + rest;
    } else {
      assert ds + rest == rest;
    }
  }

  lemma NotJsSpace(c: char)
    requires c == '-' || IsDigit(c)
    ensures !IsJsSpace(c)
  {
  }

  lemma TrimStartKeeps(s: string)
    requires |s| > 0 && !IsJsSpace(s[0])
    ensures TrimStart(s) == s
  {
  }

  lemma ParseSignedPlain(ds: string, rest: string)
    requires ds != [] && forall i :: 0 <= i < |ds| ==> IsDigit(ds[i])
    requires rest == [] || !IsDigit(rest[0])
    ensures ParseSigned(ds + rest).Some? && ParseSigned(ds + rest).value == DigitsValue(ds)
  {
    assert (ds + rest)[0] == ds[0];
    LeadingDigitsOf(ds, rest);
  }

  lemma ParseSignedMinus(ds: string, rest: string)
    requires ds != [] && forall i :: 0 <= i < |ds| ==> IsDigit(ds[i])
    requires rest == [] || !IsDigit(rest[0])
    ensures ParseSigned("-" + (ds + rest)).Some? && ParseSigned("-" + (ds + rest)).value == -(DigitsValue(ds) as int)
  {
    var t := "-" + (ds + rest);
    assert t[0] == '-' && t[1..] == ds + rest;
    LeadingDigitsOf(ds, rest);
  }

  /** Digits after a minus sign are read as the negated number they spell. */
  lemma ParseIntMinus(ds: string, rest: string)
    requires ds != [] && forall i :: 0 <= i < |ds| ==> IsDigit(ds[i])
    requires rest == [] || !IsDigit(rest[0])
    ensures ParseInt("-" + (ds + rest)).Some? && ParseInt("-" + (ds + rest)).value == -(DigitsValue(ds) as int)
  {
    NotJsSpace('-');
    TrimStartKeeps("-" + (ds + rest));
    ParseSignedMinus(ds, rest);
  }

  /** Digits at the start are read as the number they spell. */
  lemma ParseIntPlain(ds: string, rest: string)
    requires ds != [] && forall i :: 0 <= i < |ds| ==> IsDigit(ds[i])
    requires rest == [] || !IsDigit(rest[0])
    ensures ParseInt(ds + rest).Some? && ParseInt(ds + rest).value == DigitsValue(ds)
  {
    NotJsSpace(ds[0]);
    assert (ds + rest)[0] == ds[0];
    TrimStartKeeps(ds + rest);
    ParseSignedPlain(ds, rest);
  }

  /**
   * `parseInt` reads back what `IntToString` prints, whatever follows the
   * number as long as it does not start with a digit.
   */
  lemma ParseIntRoundTrip(n: int, rest: string)
    requires rest == [] || !IsDigit(rest[0])
    ensures ParseInt(IntToString(n) + rest).Some? && ParseInt(IntToString(n) + rest).value == n
  {
    if n < 0 {
      ParseIntNegative(n, rest);
    } else {
      ParseIntNonNegative(n, rest);
    }
  }

  lemma ParseIntNegative(n: int, rest: string)
    requires n < 0
    requires rest == [] || !IsDigit(rest[0])
    ensures ParseInt(IntToString(n) + rest).Some? && ParseInt(IntToString(n) + rest).value == n
  {
    var ds := NatToString(-n);
    DigitsValueOfNat(-n);
    assert IntToString(n) + rest == "-" + (ds + rest);
    ParseIntMinus(ds, rest);
  }

  lemma ParseIntNonNegative(n: nat, rest: string)
    requires rest == [] || !IsDigit(rest[0])
    ensures ParseInt(IntToString(n) + rest).Some? && ParseInt(IntToString(n) + rest).value == n
  {
    DigitsValueOfNat(n);
    ParseIntPlain(NatToString(n), rest);
  }
}
