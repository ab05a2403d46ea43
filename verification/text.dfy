/** String operations of the JavaScript runtime that the application relies on:
    `startsWith`, `includes`/`indexOf`, decimal number printing and parsing,
    `trim` and lower-casing. */
module Text {
  import opened Wrappers

  /** `s.startsWith(prefix)`. */
  predicate StartsWith(s: string, prefix: string)
  {
    |prefix| <= |s| && s[..|prefix|] == prefix
  }

  /** `t` occurs in `s` starting at index `i`. */
  ghost predicate OccursAt(s: string, t: string, i: nat)
  {
    i + |t| <= |s| && s[i..i + |t|] == t
  }

  /** `s.indexOf(t, from)`, with `None` for -1: the first occurrence of `t` at or after `from`. */
  function IndexOf(s: string, t: string, from: nat): (r: Option<nat>)
    ensures r.Some? ==> from <= r.value && OccursAt(s, t, r.value)
    ensures r.Some? ==> forall j :: from <= j < r.value ==> !OccursAt(s, t, j)
    ensures r.None? ==> forall j :: from <= j ==> !OccursAt(s, t, j)
    decreases |s| - from
  {
    if from + |t| > |s| then None
    else if s[from..from + |t|] == t then Some(from)
    else IndexOf(s, t, from + 1)
  }

  /** `s.includes(t)`. */
  predicate Contains(s: string, t: string)
  {
    IndexOf(s, t, 0).Some?
  }

  /** `includes` holds exactly when `t` occurs somewhere in `s`. */
  lemma ContainsMeansOccurs(s: string, t: string)
    ensures Contains(s, t) <==> exists i: nat :: OccursAt(s, t, i)
  {
    var r := IndexOf(s, t, 0);
    if r.Some? {
      assert OccursAt(s, t, r.value);
    }
  }

  // ---------------------------------------------------------------- decimal numbers

  predicate IsDigit(c: char)
  {
    '0' <= c <= '9'
  }

  predicate AllDigits(s: string)
  {
    forall i :: 0 <= i < |s| ==> IsDigit(s[i])
  }

  function DigitChar(d: nat): (c: char)
    requires d < 10
    ensures IsDigit(c) && c as int - '0' as int == d
  {
    ('0' as int + d) as char
  }

  /** `String(n)` for a natural number: its decimal digits without leading zeros. */
  function NatToString(n: nat): (s: string)
    ensures |s| >= 1 && AllDigits(s)
    ensures s[0] == '0' ==> n == 0
    decreases n
  {
    if n < 10 then [DigitChar(n)] else NatToString(n / 10) + [DigitChar(n % 10)]
  }

  /** The value of a string of decimal digits, as `Number(...)` reads it. */
  function DigitsValue(s: string): nat
    requires AllDigits(s)
  {
    if |s| == 0 then 0 else DigitsValue(s[..|s| - 1]) * 10 + (s[|s| - 1] as int - '0' as int)
  }

  /** Reading back a printed natural gives the same number. */
  lemma {:induction false} NatToStringRoundTrip(n: nat)
    ensures DigitsValue(NatToString(n)) == n
    decreases n
  {
    if n >= 10 {
      NatToStringRoundTrip(n / 10);
      var s := NatToString(n);
      assert s[..|s| - 1] == NatToString(n / 10);
    }
  }

  /** Distinct naturals print differently. */
  lemma NatToStringInjective(m: nat, n: nat)
    requires NatToString(m) == NatToString(n)
    ensures m == n
  {
    NatToStringRoundTrip(m);
    NatToStringRoundTrip(n);
  }

  /** `String(i)` for an integer. */
  function IntToString(i: int): (s: string)
    ensures |s| >= 1
    ensures i < 0 <==> s[0] == '-'
  {
    if i < 0 then "-" + NatToString(-i) else NatToString(i)
  }

  // ---------------------------------------------------------------- trim

  /** ECMAScript white space and line terminators: the characters `trim` removes. */
  predicate IsJsSpace(c: char)
  {
    || c == '\t' || c == '\n' || c == '\U{000B}' || c == '\U{000C}' || c == '\r' || c == ' '
    || c == '\U{00A0}' || c == '\U{1680}' || ('\U{2000}' <= c <= '\U{200A}')
    || c == '\U{2028}' || c == '\U{2029}' || c == '\U{202F}' || c == '\U{205F}'
    || c == '\U{3000}' || c == '\U{FEFF}'
  }

  ghost predicate AllSpace(s: string)
  {
    forall i :: 0 <= i < |s| ==> IsJsSpace(s[i])
  }

  /** Neither end of `s` is white space. */
  ghost predicate Trimmed(s: string)
  {
    |s| == 0 || (!IsJsSpace(s[0]) && !IsJsSpace(s[|s| - 1]))
  }

  /** The number of white-space characters at the start of `s`. */
  function LeadingSpace(s: string): (n: nat)
    ensures n <= |s| && AllSpace(s[..n])
    ensures n < |s| ==> !IsJsSpace(s[n])
  {
    if |s| == 0 || !IsJsSpace(s[0]) then 0 else 1 + LeadingSpace(s[1..])
  }

  /** The number of white-space characters at the end of `s`. */
  function TrailingSpace(s: string): (n: nat)
    ensures n <= |s| && AllSpace(s[|s| - n..])
    ensures n < |s| ==> !IsJsSpace(s[|s| - n - 1])
  {
    if |s| == 0 || !IsJsSpace(s[|s| - 1]) then 0 else 1 + TrailingSpace(s[..|s| - 1])
  }

  /** `s.trim()`: `s` without its leading and trailing white space. */
  function Trim(s: string): (r: string)
    ensures Trimmed(r)
    ensures exists a, b :: 0 <= a <= b <= |s| && r == s[a..b] && AllSpace(s[..a]) && AllSpace(s[b..])
  {
    var a := LeadingSpace(s);
    if a == |s| then
      assert s == s[..a];
      assert s[0..0] == "" && AllSpace(s[|s|..]);
      ""
    else
      var b := |s| - TrailingSpace(s);
      assert forall i :: b <= i < |s| ==> s[b..][i - b] == s[i];
      assert forall i :: b <= i < |s| ==> IsJsSpace(s[i]);
      assert !IsJsSpace(s[a]);
      s[a..b]
  }

  /** Trimming twice changes nothing more. */
  lemma TrimIdempotent(s: string)
    ensures Trim(Trim(s)) == Trim(s)
  {
    var t := Trim(s);
    if |t| > 0 {
      assert LeadingSpace(t) == 0;
      assert TrailingSpace(t) == 0;
      assert t[0..|t|] == t;
    }
  }

  // ---------------------------------------------------------------- case

  /** Lower-cases an ASCII capital letter and leaves every other character alone. */
  function LowerChar(c: char): char
  {
    if 'A' <= c <= 'Z' then (c as int + 32) as char else c
  }

  /** `s.toLowerCase()` on the ASCII letters. */
  function ToLower(s: string): (r: string)
    ensures |r| == |s|
    ensures forall i :: 0 <= i < |s| ==> r[i] == LowerChar(s[i])
  {
    seq(|s|, i requires 0 <= i < |s| => LowerChar(s[i]))
  }

  // ---------------------------------------------------------------- number formatting and parsing

  /** `n` tenths printed with one decimal: the whole part, a point, the tenths digit. */
  function TenthsText(n: nat): (s: string)
    ensures |s| >= 3 && s[|s| - 2] == '.' && IsDigit(s[|s| - 1]) && IsDigit(s[0])
  {
    NatToString(n / 10) + "." + [DigitChar(n % 10)]
  }

  /** The number of tenths `toFixed(1)` prints for a magnitude `a`: `n / 10 - a` as close
      to zero as possible, the larger `n` on a tie. */
  function TenthsOf(a: real): nat
    requires a >= 0.0
  {
    (a * 10.0 + 0.5).Floor
  }

  /** `x.toFixed(1)`: a minus sign for negative `x`, then the magnitude's tenths. */
  function FixedOne(x: real): (s: string)
    ensures |s| >= 3 && s[|s| - 2] == '.' && IsDigit(s[|s| - 1])
    ensures s[0] == '-' <==> x < 0.0
  {
    if x < 0.0 then "-" + TenthsText(TenthsOf(-x)) else TenthsText(TenthsOf(x))
  }

  /** A non-negative tenth prints as its whole part, a point and its tenths digit. */
  lemma FixedOneOfTenth(n: nat)
    ensures FixedOne(n as real / 10.0) == TenthsText(n)
  {
    TenthsScaleBack(n);
  }

  /** Reading the printed tenth back gives the number of tenths. */
  lemma FixedOneRoundTrip(n: nat)
    ensures var s := FixedOne(n as real / 10.0);
            AllDigits(s[..|s| - 2]) && DigitsValue(s[..|s| - 2]) * 10 + (s[|s| - 1] as int - '0' as int) == n
  {
    FixedOneOfTenth(n);
    var s := TenthsText(n);
    assert s[..|s| - 2] == NatToString(n / 10);
    NatToStringRoundTrip(n / 10);
  }

  lemma TenthsScaleBack(n: nat)
    ensures ((n as real / 10.0) * 10.0 + 0.5).Floor == n
  {
    assert (n as real / 10.0) * 10.0 == n as real;
  }

  /** The length of the run of decimal digits at the start of `s`. */
  function DigitPrefix(s: string): (n: nat)
    ensures n <= |s| && AllDigits(s[..n])
    ensures n < |s| ==> !IsDigit(s[n])
  {
    if |s| == 0 || !IsDigit(s[0]) then 0
    else
      var k := 1 + DigitPrefix(s[1..]);
      assert s[..k] == [s[0]] + s[1..][..k - 1];
      k
  }

  predicate IsHexDigit(c: char)
  {
    IsDigit(c) || 'a' <= c <= 'f' || 'A' <= c <= 'F'
  }

  function HexDigitValue(c: char): (v: nat)
    requires IsHexDigit(c)
    ensures v < 16
  {
    if IsDigit(c) then c as int - '0' as int
    else if 'a' <= c <= 'f' then c as int - 'a' as int + 10
    else c as int - 'A' as int + 10
  }

  /** The length of the run of hexadecimal digits at the start of `s`. */
  function HexPrefix(s: string): (n: nat)
    ensures n <= |s| && forall i :: 0 <= i < n ==> IsHexDigit(s[i])
    ensures n < |s| ==> !IsHexDigit(s[n])
  {
    if |s| == 0 || !IsHexDigit(s[0]) then 0 else 1 + HexPrefix(s[1..])
  }

  function HexValue(s: string): nat
    requires forall i :: 0 <= i < |s| ==> IsHexDigit(s[i])
  {
    if |s| == 0 then 0 else HexValue(s[..|s| - 1]) * 16 + HexDigitValue(s[|s| - 1])
  }

  /** A JavaScript number produced by `parseInt`: an integer or `NaN`. */
  datatype JsInt = Int(value: int) | NaN

  /** `parseInt(s)` with no radix: leading white space and one sign are skipped, a `0x`
      or `0X` prefix selects hexadecimal, and the longest run of digits that follows is
      read; with no digit at all the result is `NaN`. */
  function ParseInt(s: string): (r: JsInt)
    ensures r.Int? ==> exists i :: 0 <= i < |s| && IsHexDigit(s[i])
  {
    var t := s[LeadingSpace(s)..];
    var negative := |t| > 0 && t[0] == '-';
    var u := if |t| > 0 && (t[0] == '-' || t[0] == '+') then t[1..] else t;
    var sign := if negative then -1 else 1;
    assert forall i :: 0 <= i < |u| ==> u[i] == s[|s| - |u| + i];
    if |u| >= 2 && u[0] == '0' && (u[1] == 'x' || u[1] == 'X') then
      var h := HexPrefix(u[2..]);
      if h == 0 then NaN
      else
        assert u[2..][0] == s[|s| - |u| + 2];
        Int(sign * HexValue(u[2..][..h]))
    else
      var d := DigitPrefix(u);
      if d == 0 then NaN
      else
        assert IsDigit(u[..d][0]);
        Int(sign * DigitsValue(u[..d]))
  }

  /** `parseInt` reads back every printed natural number. */
  lemma ParseIntOfNatToString(n: nat)
    ensures ParseInt(NatToString(n)) == Int(n)
  {
    var s := NatToString(n);
    NoLeadingSpace(s);
    assert s[0..] == s;
    NotHexPrefixed(n);
    DigitPrefixOfDigits(s);
    assert s[..|s|] == s;
    NatToStringRoundTrip(n);
  }

  lemma NoLeadingSpace(s: string)
    requires |s| > 0 && IsDigit(s[0])
    ensures LeadingSpace(s) == 0
  {
  }

  /** A printed natural never starts with `0x`. */
  lemma NotHexPrefixed(n: nat)
    ensures !(|NatToString(n)| >= 2 && NatToString(n)[0] == '0')
  {
  }

  /** A string of digits is one digit run. */
  lemma DigitPrefixOfDigits(s: string)
    requires AllDigits(s)
    ensures DigitPrefix(s) == |s|
  {
    if |s| > 0 {
      DigitPrefixOfDigits(s[1..]);
    }
  }

  /** `s.split(sep)[0]` for a one-character separator: the text before its first occurrence. */
  function FirstPiece(s: string, sep: char): (piece: string)
    ensures StartsWith(s, piece)
    ensures forall i :: 0 <= i < |piece| ==> piece[i] != sep
    ensures |piece| < |s| ==> s[|piece|] == sep
  {
    if |s| == 0 || s[0] == sep then ""
    else
      var rest := FirstPiece(s[1..], sep);
      assert s[..1 + |rest|] == [s[0]] + s[1..][..|rest|];
      [s[0]] + rest
  }
}
