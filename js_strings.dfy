/** The JavaScript string built-ins the program relies on: decimal rendering of
    numbers in string concatenation, `String.prototype.split` on one character,
    `startsWith` (written `indexOf(p) === 0` in the source), `trim`, and
    `parseInt` with and without an explicit radix. */
module JsStrings {
  import opened Wrappers

  // ---------------------------------------------------------------- digits

  predicate IsDigit(c: char) { '0' <= c <= '9' }

  function DigitValue(c: char): (d: nat)
    requires IsDigit(c)
    ensures d < 10
  {
    (c as int) - ('0' as int)
  }

  function DigitChar(d: nat): (c: char)
    requires d < 10
    ensures IsDigit(c) && DigitValue(c) == d
  {
    (('0' as int) + d) as char
  }

  predicate AllDigits(s: string) {
    forall i | 0 <= i < |s| :: IsDigit(s[i])
  }

  /** The value of a string of decimal digits, most significant first. */
  function DigitsValue(s: string): nat
    requires AllDigits(s)
  {
    if s == [] then 0 else DigitsValue(s[..|s| - 1]) * 10 + DigitValue(s[|s| - 1])
  }

  /** `String(n)` for a non-negative integer: the canonical decimal form. */
  function NatToString(n: nat): (s: string)
    ensures |s| >= 1 && AllDigits(s)
    ensures |s| > 1 ==> s[0] != '0'
  {
    if n < 10 then [DigitChar(n)] else NatToString(n / 10) + [DigitChar(n % 10)]
  }

  /** `String(i)` for any integer. */
  function IntToString(i: int): (s: string)
    ensures |s| >= 1
  {
    if i < 0 then "-" + NatToString(-i) else NatToString(i)
  }

  lemma {:induction false} NatToStringValue(n: nat)
    ensures DigitsValue(NatToString(n)) == n
  {
    if n >= 10 {
      var s := NatToString(n);
      var a := NatToString(n / 10);
      assert s == a + [DigitChar(n % 10)];
      assert s[..|s| - 1] == a;
      NatToStringValue(n / 10);
    }
  }

  /** Distinct numbers have distinct decimal renderings. */
  lemma NatToStringInjective(a: nat, b: nat)
    requires NatToString(a) == NatToString(b)
    ensures a == b
  {
    NatToStringValue(a);
    NatToStringValue(b);
  }

  /** Two renderings of equal length never prefix each other unless equal: used to
      cut a key built from two concatenated numbers back into its parts. */
  lemma ConcatSameWidth(a1: string, b1: string, a2: string, b2: string)
    requires |a1| == |a2| && a1 + b1 == a2 + b2
    ensures a1 == a2 && b1 == b2
  {
    assert a1 == (a1 + b1)[..|a1|];
    assert a2 == (a2 + b2)[..|a2|];
    assert b1 == (a1 + b1)[|a1|..];
    assert b2 == (a2 + b2)[|a2|..];
  }

  // ---------------------------------------------------------------- prefixes

  /** `s.indexOf(p) === 0`, i.e. `s` starts with `p`. */
  predicate StartsWith(s: string, p: string) {
    |p| <= |s| && s[..|p|] == p
  }

  lemma StartsWithConcat(p: string, q: string)
    ensures StartsWith(p + q, p)
  {
    assert (p + q)[..|p|] == p;
  }

  /** Two strings that start with the same text and then differ at the next
      character never start with each other's longer prefix. */
  lemma DivergentPrefixes(s: string, p: string, q1: string, q2: string)
    requires |q1| > 0 && |q2| > 0 && q1[0] != q2[0]
    requires StartsWith(s, p + q1)
    ensures !StartsWith(s, p + q2)
  {
    assert s[|p|] == (p + q1)[|p|] == q1[0];
    assert (p + q2)[|p|] == q2[0];
  }

  /** Text that goes on differently after a common part does not start with the
      other continuation. */
  lemma DivergentConcat(p: string, q1: string, q2: string)
    requires |q1| > 0 && |q2| > 0 && q1[0] != q2[0]
    ensures !StartsWith(p + q1, p + q2)
  {
    assert (p + q1)[|p|] == q1[0];
    assert (p + q2)[|p|] == q2[0];
  }

  // ---------------------------------------------------------------- split

  /** `s.split(sep)` for a one-character separator: the maximal separator-free
      pieces, in order; an empty string gives one empty piece. */
  function Split(s: string, sep: char): (parts: seq<string>)
    ensures |parts| >= 1
  {
    if s == [] then [[]]
    else
      var rest := Split(s[1..], sep);
      if s[0] == sep then [[]] + rest else [[s[0]] + rest[0]] + rest[1..]
  }

  /** Joining the pieces with the separator gives back the string it split. */
  function Join(parts: seq<string>, sep: char): string
    requires |parts| >= 1
  {
    if |parts| == 1 then parts[0] else parts[0] + [sep] + Join(parts[1..], sep)
  }

  lemma {:induction false} SplitJoin(s: string, sep: char)
    ensures Join(Split(s, sep), sep) == s
  {
    if s != [] {
      var rest := Split(s[1..], sep);
      SplitJoin(s[1..], sep);
      if s[0] == sep {
        assert Split(s, sep) == [[]] + rest;
        assert Split(s, sep)[1..] == rest;
      } else {
        var parts := Split(s, sep);
        assert parts == [[s[0]] + rest[0]] + rest[1..];
        if |rest| == 1 {
          assert parts == [[s[0]] + rest[0]];
        } else {
          assert parts[1..] == rest[1..];
          assert Join(rest, sep) == rest[0] + [sep] + Join(rest[1..], sep);
        }
      }
    }
  }

  lemma {:induction false} SplitPiecesHaveNoSeparator(s: string, sep: char)
    ensures forall i | 0 <= i < |Split(s, sep)| :: sep !in Split(s, sep)[i]
  {
    if s != [] {
      SplitPiecesHaveNoSeparator(s[1..], sep);
    }
  }

  /** A string without the separator is one piece. */
  lemma {:induction false} SplitNoSeparator(s: string, sep: char)
    requires sep !in s
    ensures Split(s, sep) == [s]
  {
    if s != [] {
      assert sep !in s[1..];
      SplitNoSeparator(s[1..], sep);
      assert [s[0]] + s[1..] == s;
    }
  }

  /** Splitting at a separator concatenates the pieces of both sides. */
  lemma {:induction false} SplitAppend(a: string, b: string, sep: char)
    ensures Split(a + [sep] + b, sep) == Split(a, sep) + Split(b, sep)
  {
    if a == [] {
      assert a + [sep] + b == [sep] + b;
      assert ([sep] + b)[1..] == b;
    } else {
      assert (a + [sep] + b)[1..] == a[1..] + [sep] + b;
      assert (a + [sep] + b)[0] == a[0];
      SplitAppend(a[1..], b, sep);
    }
  }

  // ---------------------------------------------------------------- whitespace, trim

  /** ECMAScript WhiteSpace and LineTerminator code points: what `trim` removes
      and what `parseInt` skips. */
  predicate IsJsWhitespace(c: char) {
    || c == '\t' || c == '\n' || c == '\U{000B}' || c == '\U{000C}' || c == '\r'
    || c == ' ' || c == '\U{00A0}' || c == '\U{1680}'
    || ('\U{2000}' <= c <= '\U{200A}')
    || c == '\U{2028}' || c == '\U{2029}' || c == '\U{202F}' || c == '\U{205F}'
    || c == '\U{3000}' || c == '\U{FEFF}'
  }

  function TrimStart(s: string): (t: string)
    ensures |t| <= |s| && t == s[|s| - |t|..]
    ensures t != [] ==> !IsJsWhitespace(t[0])
    ensures forall i | 0 <= i < |s| - |t| :: IsJsWhitespace(s[i])
  {
    if s != [] && IsJsWhitespace(s[0]) then TrimStart(s[1..]) else s
  }

  function TrimEnd(s: string): (t: string)
    ensures |t| <= |s| && t == s[..|t|]
    ensures t != [] ==> !IsJsWhitespace(t[|t| - 1])
    ensures forall i | |t| <= i < |s| :: IsJsWhitespace(s[i])
  {
    if s != [] && IsJsWhitespace(s[|s| - 1]) then TrimEnd(s[..|s| - 1]) else s
  }

  /** `s.trim()`. */
  function Trim(s: string): string {
    TrimEnd(TrimStart(s))
  }

  /** `s.trim().length > 0` holds exactly when some character is not whitespace. */
  lemma TrimNonEmpty(s: string)
    ensures |Trim(s)| > 0 <==> exists i | 0 <= i < |s| :: !IsJsWhitespace(s[i])
  {
    var t := TrimStart(s);
    if |Trim(s)| > 0 {
      assert !IsJsWhitespace(t[0]);
      assert s[|s| - |t|] == t[0];
    } else {
      assert |t| == 0;
    }
  }

  // ---------------------------------------------------------------- parseInt

  /** The number of leading decimal digits of `s`. */
  function LeadingDigits(s: string): (k: nat)
    ensures k <= |s| && AllDigits(s[..k])
    ensures k < |s| ==> !IsDigit(s[k])
  {
    if s != [] && IsDigit(s[0]) then
      var k := 1 + LeadingDigits(s[1..]);
      assert s[..k] == [s[0]] + s[1..][..k - 1];
      k
    else 0
  }

  predicate IsHexDigit(c: char) {
    IsDigit(c) || ('a' <= c <= 'f') || ('A' <= c <= 'F')
  }

  /** Whether the text after the sign starts with `0x` or `0X`. */
  predicate HasHexPrefix(u: string) {
    |u| >= 2 && u[0] == '0' && (u[1] == 'x' || u[1] == 'X')
  }

  /** Skips one optional sign; reports whether it was `-`. */
  function StripSign(t: string): (bool, string) {
    if t != [] && t[0] == '-' then (true, t[1..])
    else if t != [] && t[0] == '+' then (false, t[1..])
    else (false, t)
  }

  /** `parseInt(s, 10)`: optional leading whitespace, an optional sign, then the
      longest run of decimal digits; `None` stands for `NaN` (no digit). The text
      after the digits is ignored. */
  function ParseInt10(s: string): Option<int> {
    var (negative, u) := StripSign(TrimStart(s));
    var k := LeadingDigits(u);
    if k == 0 then None
    else
      var v: int := DigitsValue(u[..k]);
      Some(if negative then -v else v)
  }

  /** `!isNaN(parseInt(s))`, `parseInt` without a radix: after whitespace and sign,
      a `0x`/`0X` prefix selects hexadecimal and then needs a hex digit; otherwise
      a decimal digit is needed. */
  predicate ParseIntAutoIsNumber(s: string) {
    var (_, u) := StripSign(TrimStart(s));
    if HasHexPrefix(u) then |u| >= 3 && IsHexDigit(u[2])
    else LeadingDigits(u) > 0
  }

  /** Whenever the radix-less parse yields a number, so does the decimal parse (a
      hexadecimal text reads as 0 in base 10). */
  lemma AutoNumberMeansDecimalNumber(s: string)
    requires ParseIntAutoIsNumber(s)
    ensures ParseInt10(s).Some?
  {
    var (_, u) := StripSign(TrimStart(s));
    if HasHexPrefix(u) {
      assert IsDigit(u[0]);
    }
  }

  lemma {:induction false} LeadingDigitsAll(s: string, rest: string)
    requires AllDigits(s)
    requires rest == [] || !IsDigit(rest[0])
    ensures LeadingDigits(s + rest) == |s|
  {
    if s != [] {
      assert (s + rest)[1..] == s[1..] + rest;
      LeadingDigitsAll(s[1..], rest);
    } else {
      assert s + rest == rest;
    }
  }

  /** parseInt reads back what String(i) writes. */
  lemma ParseIntToString(i: int)
    ensures ParseInt10(IntToString(i)) == Some(i)
    ensures ParseIntAutoIsNumber(IntToString(i))
  {
    var s := IntToString(i);
    var d := NatToString(if i < 0 then -i else i);
    assert !IsJsWhitespace(s[0]);
    assert TrimStart(s) == s;
    LeadingDigitsAll(d, []);
    assert d + [] == d;
    assert d[..|d|] == d;
    NatToStringValue(if i < 0 then -i else i);
    if i < 0 {
      assert s == "-" + d && s[1..] == d;
    }
    assert StripSign(s).1 == d;
  }
}
