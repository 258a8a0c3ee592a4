/**
 * The JavaScript string operations the application relies on: white space and `trim`,
 * `length` in UTF-16 code units, `toLowerCase`, `startsWith`, `includes`, and `parseInt`
 * together with the decimal rendering of a number (`${n}`).
 */
module Strings {
  import opened Wrappers

  /**
   * JavaScript white space and line terminators: the characters `String.prototype.trim`
   * removes and the regular-expression class `\s` matches.
   */
  predicate IsSpace(c: char) {
    || c == '\t' || c == '\n' || c == '\U{000B}' || c == '\U{000C}' || c == '\r' || c == ' '
    || c == '\U{00A0}' || c == '\U{1680}' || ('\U{2000}' <= c <= '\U{200A}')
    || c == '\U{2028}' || c == '\U{2029}' || c == '\U{202F}' || c == '\U{205F}'
    || c == '\U{3000}' || c == '\U{FEFF}'
  }

  /** JavaScript line terminators, the characters the regular-expression `.` does not match. */
  predicate IsLineTerminator(c: char) {
    c == '\n' || c == '\r' || c == '\U{2028}' || c == '\U{2029}'
  }

  predicate AllSpace(s: string) {
    forall i :: 0 <= i < |s| ==> IsSpace(s[i])
  }

  /** `trimStart`: drops the leading white space and nothing else. */
  function TrimStart(s: string): (r: string)
    ensures |r| <= |s| && r == s[|s| - |r|..]
    ensures r == [] || !IsSpace(r[0])
    ensures AllSpace(s[..|s| - |r|])
  {
    if s != [] && IsSpace(s[0]) then TrimStart(s[1..]) else s
  }

  /** `trimEnd`: drops the trailing white space and nothing else. */
  function TrimEnd(s: string): (r: string)
    ensures |r| <= |s| && r == s[..|r|]
    ensures r == [] || !IsSpace(r[|r| - 1])
    ensures AllSpace(s[|r|..])
  {
    if s != [] && IsSpace(s[|s| - 1]) then TrimEnd(s[..|s| - 1]) else s
  }

  /** `String.prototype.trim`. */
  function Trim(s: string): (r: string)
    ensures |r| <= |s|
    ensures r == [] || (!IsSpace(r[0]) && !IsSpace(r[|r| - 1]))
  {
    TrimEnd(TrimStart(s))
  }

  /** Trimming yields the empty string exactly when the input is white space only. */
  lemma TrimEmptyIff(s: string)
    ensures Trim(s) == [] <==> AllSpace(s)
  {
    var t := TrimStart(s);
    if Trim(s) == [] {
      assert AllSpace(t) by { assert t[0..] == t; }
      assert t == [];
      assert s[..|s| - |t|] == s;
    }
  }

  /** Trimming a string that neither starts nor ends with white space changes nothing. */
  lemma TrimNoop(s: string)
    requires s == [] || (!IsSpace(s[0]) && !IsSpace(s[|s| - 1]))
    ensures Trim(s) == s
  {
  }

  /** `trim` is idempotent. */
  lemma TrimIdempotent(s: string)
    ensures Trim(Trim(s)) == Trim(s)
  {
    TrimNoop(Trim(s));
  }

  /** Leading white space before a non-space middle is all that `trimStart` removes. */
  lemma {:induction false} TrimStartConcat(a: string, m: string, b: string)
    requires m != [] && !IsSpace(m[0])
    ensures TrimStart(a + m + b) == TrimStart(a) + m + b
  {
    if a == [] {
      assert a + m + b == m + b;
    } else {
      assert (a + m + b)[0] == a[0];
      assert (a + m + b)[1..] == a[1..] + m + b;
      TrimStartConcat(a[1..], m, b);
    }
  }

  /** Trailing white space after a non-space middle is all that `trimEnd` removes. */
  lemma {:induction false} TrimEndConcat(a: string, m: string, b: string)
    requires m != [] && !IsSpace(m[|m| - 1])
    ensures TrimEnd(a + m + b) == a + m + TrimEnd(b)
  {
    if b == [] {
      assert a + m + b == a + m;
    } else {
      var s := a + m + b;
      assert s[|s| - 1] == b[|b| - 1];
      assert s[..|s| - 1] == a + m + b[..|b| - 1];
      TrimEndConcat(a, m, b[..|b| - 1]);
    }
  }

  /** A part that starts and ends with a non-space character survives `trim` intact. */
  lemma TrimKeepsInner(a: string, m: string, b: string)
    requires m != [] && !IsSpace(m[0]) && !IsSpace(m[|m| - 1])
    ensures Trim(a + m + b) == TrimStart(a) + m + TrimEnd(b)
  {
    TrimStartConcat(a, m, b);
    TrimEndConcat(TrimStart(a), m, b);
  }

  /** White space alone trims away completely from either end. */
  lemma {:induction false} TrimAllSpace(s: string)
    requires AllSpace(s)
    ensures TrimStart(s) == [] && TrimEnd(s) == []
  {
    if s != [] {
      TrimAllSpace(s[1..]);
      TrimAllSpace(s[..|s| - 1]);
    }
  }

  /** `trim` removes white-space padding around a text and nothing of the text itself. */
  lemma TrimPadded(a: string, m: string, b: string)
    requires AllSpace(a) && AllSpace(b)
    requires m != [] && !IsSpace(m[0]) && !IsSpace(m[|m| - 1])
    ensures Trim(a + m + b) == m
  {
    TrimKeepsInner(a, m, b);
    TrimAllSpace(a);
    TrimAllSpace(b);
  }

  /** The number of UTF-16 code units of one character: two for those outside the Basic Multilingual Plane. */
  function CodeUnits(c: char): nat {
    if c as int > 0xFFFF then 2 else 1
  }

  /** JavaScript's `length`, counted in UTF-16 code units. */
  function JsLength(s: string): (n: nat)
    ensures |s| <= n <= 2 * |s|
  {
    if s == [] then 0 else CodeUnits(s[0]) + JsLength(s[1..])
  }

  lemma {:induction false} JsLengthConcat(a: string, b: string)
    ensures JsLength(a + b) == JsLength(a) + JsLength(b)
  {
    if a != [] {
      assert (a + b)[0] == a[0];
      assert (a + b)[1..] == a[1..] + b;
      JsLengthConcat(a[1..], b);
    } else {
      assert a + b == b;
    }
  }

  /**
   * Case folding for the ASCII letters. It is how `/i` compares the patterns of this
   * application (non-Unicode mode never folds a non-ASCII character onto an ASCII one),
   * and it stands for `toLowerCase`.
   */
  function FoldCase(c: char): (d: char)
    ensures 'A' <= c <= 'Z' ==> 'a' <= d <= 'z' && d as int - c as int == 32
    ensures !('A' <= c <= 'Z') ==> d == c
  {
    if 'A' <= c <= 'Z' then (c as int + 32) as char else c
  }

  function Lower(s: string): (r: string)
    ensures |r| == |s| && forall i :: 0 <= i < |s| ==> r[i] == FoldCase(s[i])
  {
    if s == [] then [] else [FoldCase(s[0])] + Lower(s[1..])
  }

  /** `s.startsWith(prefix)`. */
  predicate StartsWith(s: string, prefix: string) {
    prefix <= s
  }

  predicate OccursAt(s: string, t: string, i: nat) {
    i + |t| <= |s| && s[i..i + |t|] == t
  }

  /** `s.includes(t)`, searching from the left. */
  predicate Contains(s: string, t: string) {
    t <= s || (s != [] && Contains(s[1..], t))
  }

  /** `includes` holds exactly when the text occurs at some position. */
  lemma {:induction false} ContainsIff(s: string, t: string)
    ensures Contains(s, t) <==> exists i: nat :: OccursAt(s, t, i)
  {
    if t <= s {
      assert OccursAt(s, t, 0);
    } else if s != [] {
      ContainsIff(s[1..], t);
      forall i: nat | OccursAt(s[1..], t, i) ensures OccursAt(s, t, i + 1) {
        assert s[1..][i..i + |t|] == s[i + 1..i + 1 + |t|];
      }
      forall i: nat | OccursAt(s, t, i) ensures i > 0 && OccursAt(s[1..], t, i - 1) {
        assert s[1..][i - 1..i - 1 + |t|] == s[i..i + |t|];
      }
    }
  }

  /** `text.toLowerCase().includes(term.toLowerCase())`, the search every list page applies. */
  predicate IncludesIgnoringCase(text: string, term: string) {
    Contains(Lower(text), Lower(term))
  }

  /** The empty search text is found in every string. */
  lemma ContainsEmpty(s: string)
    ensures Contains(s, "")
    ensures IncludesIgnoringCase(s, "")
  {
  }

  // ---- numbers ----

  predicate IsDigit(c: char) {
    '0' <= c <= '9'
  }

  function DigitChar(d: nat): (c: char)
    requires d < 10
    ensures IsDigit(c)
  {
    ('0' as int + d) as char
  }

  /** The decimal rendering of a natural number, as `${n}` produces it. */
  function NatToString(n: nat): (s: string)
    ensures s != [] && forall i :: 0 <= i < |s| ==> IsDigit(s[i])
  {
    if n < 10 then [DigitChar(n)] else NatToString(n / 10) + [DigitChar(n % 10)]
  }

  /** The value of a digit in radix 10 or 16, if the character is one. */
  function DigitValue(c: char, radix: nat): Option<nat> {
    if '0' <= c <= '9' && c as int - '0' as int < radix then Some(c as int - '0' as int)
    else if radix == 16 && 'a' <= c <= 'f' then Some(c as int - 'a' as int + 10)
    else if radix == 16 && 'A' <= c <= 'F' then Some(c as int - 'A' as int + 10)
    else None
  }

  /** The longest prefix made of digits of the radix. */
  function LeadingDigits(s: string, radix: nat): (r: string)
    ensures r <= s
    ensures forall i :: 0 <= i < |r| ==> DigitValue(r[i], radix).Some?
  {
    if s != [] && DigitValue(s[0], radix).Some? then [s[0]] + LeadingDigits(s[1..], radix) else []
  }

  /** The value of a string of digits, most significant first. */
  function DigitsValue(s: string, radix: nat): nat
    requires forall i :: 0 <= i < |s| ==> DigitValue(s[i], radix).Some?
  {
    if s == [] then 0 else DigitsValue(s[..|s| - 1], radix) * radix + DigitValue(s[|s| - 1], radix).value
  }

  /** An unsigned `parseInt`: a `0x`/`0X` prefix selects hexadecimal, then the longest run of digits is read. */
  function ParseUnsigned(u: string): Option<nat> {
    var hex := StartsWith(u, "0x") || StartsWith(u, "0X");
    var radix := if hex then 16 else 10;
    var digits := LeadingDigits(if hex then u[2..] else u, radix);
    if digits == [] then None else Some(DigitsValue(digits, radix))
  }

  /**
   * `parseInt(s)` without a radix: leading white space is skipped, one sign is read, and
   * the rest is read as by `ParseUnsigned`; `None` stands for `NaN` (no digits at all).
   */
  function ParseInt(s: string): Option<int> {
    var t := TrimStart(s);
    var signed := t != [] && (t[0] == '-' || t[0] == '+');
    match ParseUnsigned(if signed then t[1..] else t)
    case None => None
    case Some(v) => Some(if signed && t[0] == '-' then -(v as int) else v)
  }

  lemma {:induction false} DigitsValueOfNat(n: nat)
    ensures DigitsValue(NatToString(n), 10) == n
  {
    var s := NatToString(n);
    if n >= 10 {
      DigitsValueOfNat(n / 10);
      assert s[..|s| - 1] == NatToString(n / 10);
    }
  }

  lemma {:induction false} LeadingDigitsOfDigits(s: string)
    requires forall i :: 0 <= i < |s| ==> IsDigit(s[i])
    ensures LeadingDigits(s, 10) == s
  {
    if s != [] {
      LeadingDigitsOfDigits(s[1..]);
    }
  }

  /** `parseInt` reads back the decimal rendering of every natural number. */
  lemma ParseIntOfNatToString(n: nat)
    ensures ParseInt(NatToString(n)) == Some(n)
  {
    var s := NatToString(n);
    ParseIntOfDigits(s);
    DigitsValueOfNat(n);
  }

  /** Decimal digits read as an unsigned number give their value. */
  lemma ParseUnsignedOfDigits(s: string)
    requires s != [] && forall i :: 0 <= i < |s| ==> IsDigit(s[i])
    ensures forall i :: 0 <= i < |s| ==> DigitValue(s[i], 10).Some?
    ensures ParseUnsigned(s) == Some(DigitsValue(s, 10))
  {
    assert !StartsWith(s, "0x") && !StartsWith(s, "0X") by {
      if |s| >= 2 { assert IsDigit(s[1]); }
    }
    LeadingDigitsOfDigits(s);
  }

  /** `parseInt` of a string of decimal digits is their value. */
  lemma ParseIntOfDigits(s: string)
    requires s != [] && forall i :: 0 <= i < |s| ==> IsDigit(s[i])
    ensures forall i :: 0 <= i < |s| ==> DigitValue(s[i], 10).Some?
    ensures ParseInt(s) == Some(DigitsValue(s, 10))
  {
    UnsignedParse(s);
    ParseUnsignedOfDigits(s);
  }

  /** Text that starts with neither white space nor a sign is read as an unsigned number. */
  lemma UnsignedParse(s: string)
    requires s != [] && IsDigit(s[0])
    ensures ParseInt(s) == ParseUnsigned(s)
  {
    assert TrimStart(s) == s;
  }
}
