/**
 * The JavaScript string and number conversions the pages rely on, written out:
 * `parseInt` without a radix, `Number.prototype.toString` on integers,
 * the `s || null` / `s || ''` idioms, `startsWith`, `split(sep).pop()` and
 * `split(sep)[0]`.
 */
module JsText {
  import opened Wrappers

  /** The characters `parseInt` skips before the number (WhiteSpace and LineTerminator in ECMAScript). */
  predicate IsJsWhitespace(c: char) {
    c == ' ' || c == '\t' || c == '\n' || c == '\r' || c == '\U{B}' || c == '\U{C}'
    || c == '\U{A0}' || c == '\U{FEFF}' || c == '\U{1680}' || ('\U{2000}' <= c <= '\U{200A}')
    || c == '\U{2028}' || c == '\U{2029}' || c == '\U{202F}' || c == '\U{205F}' || c == '\U{3000}'
  }

  /** `s` without its leading whitespace. */
  function TrimStart(s: string): string {
    if s != [] && IsJsWhitespace(s[0]) then TrimStart(s[1..]) else s
  }

  /** What `TrimStart` removes is a run of whitespace at the front, and what it keeps starts with a non-whitespace character. */
  lemma {:induction false} TrimStartShape(s: string)
    ensures var r := TrimStart(s);
      && |r| <= |s| && r == s[|s| - |r|..]
      && (r == [] || !IsJsWhitespace(r[0]))
      && forall i :: 0 <= i < |s| - |r| ==> IsJsWhitespace(s[i])
  {
    if s != [] && IsJsWhitespace(s[0]) {
      TrimStartShape(s[1..]);
    }
  }

  /** The value of a digit in base 36 (0-9, then a-z or A-Z); 36 for any other character. */
  function DigitValue(c: char): nat {
    if '0' <= c <= '9' then c as nat - '0' as nat
    else if 'a' <= c <= 'z' then c as nat - 'a' as nat + 10
    else if 'A' <= c <= 'Z' then c as nat - 'A' as nat + 10
    else 36
  }

  /** The longest prefix of `s` made of digits of base `radix`. */
  function DigitPrefix(s: string, radix: nat): string {
    if s != [] && DigitValue(s[0]) < radix then [s[0]] + DigitPrefix(s[1..], radix) else []
  }

  /** `DigitPrefix` keeps a prefix made of digits, and stops at the end or at the first non-digit. */
  lemma {:induction false} DigitPrefixShape(s: string, radix: nat)
    ensures var r := DigitPrefix(s, radix);
      && |r| <= |s| && r == s[..|r|]
      && (forall i :: 0 <= i < |r| ==> DigitValue(r[i]) < radix)
      && (|r| == |s| || DigitValue(s[|r|]) >= radix)
  {
    if s != [] && DigitValue(s[0]) < radix {
      DigitPrefixShape(s[1..], radix);
    }
  }

  /** The number that the digit string `d` denotes in base `radix`. */
  function DigitsValue(d: string, radix: nat): nat {
    if d == [] then 0 else DigitsValue(d[..|d| - 1], radix) * radix + DigitValue(d[|d| - 1])
  }

  /** The number after the sign: hexadecimal after a `0x`/`0X` prefix, decimal otherwise; `None` when there is no digit. */
  function ParseMagnitude(u: string): Option<nat> {
    if |u| >= 2 && u[0] == '0' && (u[1] == 'x' || u[1] == 'X') then
      var d := DigitPrefix(u[2..], 16);
      if d == [] then None else Some(DigitsValue(d, 16))
    else
      var d := DigitPrefix(u, 10);
      if d == [] then None else Some(DigitsValue(d, 10))
  }

  /** A magnitude with its sign applied. */
  function Signed(m: Option<nat>, negative: bool): Option<int> {
    match m
    case None => None
    case Some(n) => Some(if negative then 0 - n as int else n as int)
  }

  /**
   * `parseInt(s)` with no radix: skip leading whitespace, take an optional sign,
   * read hexadecimal after a `0x`/`0X` prefix and decimal otherwise, and stop at
   * the first character that is not a digit. `None` stands for NaN (no digit at all).
   * Numbers are unbounded here (JavaScript loses precision beyond 2^53).
   */
  function ParseInt(s: string): (r: Option<int>)
    ensures TrimStart(s) == [] ==> r.None?
    ensures r.Some? && r.value < 0 ==> TrimStart(s)[0] == '-'
  {
    var t := TrimStart(s);
    var hasSign := t != [] && (t[0] == '-' || t[0] == '+');
    Signed(ParseMagnitude(if hasSign then t[1..] else t), t != [] && t[0] == '-')
  }

  /** `parseInt(s) || 0`: NaN (and 0) become 0. */
  function ParseIntOrZero(s: string): (r: int)
    ensures ParseInt(s).None? ==> r == 0
    ensures ParseInt(s).Some? ==> r == ParseInt(s).value
  {
    match ParseInt(s)
    case None => 0
    case Some(n) => n
  }

  function DecimalDigit(n: nat): char
    requires n < 10
  {
    "0123456789"[n]
  }

  /** Decimal digits of `n`, most significant first, without leading zeros. */
  function NatToString(n: nat): (r: string)
    ensures r != []
    ensures forall i :: 0 <= i < |r| ==> DigitValue(r[i]) < 10
    ensures r[0] == '0' ==> n == 0 && |r| == 1
  {
    if n < 10 then [DecimalDigit(n)] else NatToString(n / 10) + [DecimalDigit(n % 10)]
  }

  /** `n.toString()` for an integer `n`. */
  function IntToString(n: int): (r: string)
    ensures r != [] && (r[0] == '-' <==> n < 0)
  {
    if n < 0 then "-" + NatToString(-n) else NatToString(n)
  }

  lemma {:induction false} NatToStringValue(n: nat)
    ensures DigitsValue(NatToString(n), 10) == n
  {
    if n >= 10 {
      var s := NatToString(n);
      assert s[..|s| - 1] == NatToString(n / 10);
      NatToStringValue(n / 10);
    }
  }

  lemma AllDigitsPrefix(s: string, radix: nat)
    requires forall i :: 0 <= i < |s| ==> DigitValue(s[i]) < radix
    ensures DigitPrefix(s, radix) == s
  {
  }

  /** The digit prefix of digits followed by a non-digit is those digits. */
  lemma {:induction false} DigitPrefixStopsAt(d: string, rest: string, radix: nat)
    requires forall i :: 0 <= i < |d| ==> DigitValue(d[i]) < radix
    requires rest == [] || DigitValue(rest[0]) >= radix
    ensures DigitPrefix(d + rest, radix) == d
  {
    if d != [] {
      assert (d + rest)[1..] == d[1..] + rest;
      DigitPrefixStopsAt(d[1..], rest, radix);
    }
  }

  lemma TrimStartNoWhitespace(s: string)
    requires s != [] && !IsJsWhitespace(s[0])
    ensures TrimStart(s) == s
  {
  }

  /** Decimal digits followed by something that is neither a digit nor an `x` read as those digits. */
  lemma ParseMagnitudeNumeral(d: string, rest: string)
    requires d != [] && forall i :: 0 <= i < |d| ==> DigitValue(d[i]) < 10
    requires rest == [] || (DigitValue(rest[0]) >= 10 && rest[0] != 'x' && rest[0] != 'X')
    ensures ParseMagnitude(d + rest) == Some(DigitsValue(d, 10))
  {
    var u := d + rest;
    assert u[0] == d[0];
    assert |d| >= 2 ==> u[1] == d[1];
    assert |d| == 1 && rest != [] ==> u[1] == rest[0];
    DigitPrefixStopsAt(d, rest, 10);
  }

  /** `parseInt` of a string that starts with a digit reads its magnitude. */
  lemma ParseIntUnsigned(d: string, rest: string, k: nat)
    requires d != [] && '0' <= d[0] <= '9'
    requires ParseMagnitude(d + rest) == Some(k)
    ensures ParseInt(d + rest) == Some(k)
  {
    assert (d + rest)[0] == d[0];
    TrimStartNoWhitespace(d + rest);
  }

  /** `parseInt` of a minus sign followed by `u` reads the magnitude of `u`, negated. */
  lemma ParseIntMinus(u: string, k: nat)
    requires ParseMagnitude(u) == Some(k)
    ensures ParseInt("-" + u) == Some(-(k as int))
  {
    TrimStartNoWhitespace("-" + u);
    assert ("-" + u)[1..] == u;
  }

  /**
   * A decimal numeral followed by something that is neither a digit nor an
   * `x` parses to the numeral's value.
   */
  lemma ParseIntNumeral(digits: string, rest: string)
    requires digits != [] && forall i :: 0 <= i < |digits| ==> DigitValue(digits[i]) < 10
    requires rest == [] || (DigitValue(rest[0]) >= 10 && rest[0] != 'x' && rest[0] != 'X')
    ensures ParseInt(digits + rest) == Some(DigitsValue(digits, 10))
  {
    ParseMagnitudeNumeral(digits, rest);
    assert '0' <= digits[0] <= '9';
    ParseIntUnsigned(digits, rest, DigitsValue(digits, 10));
  }

  /** `parseInt(n.toString())` gives back `n`: the text a number is shown as parses to that number. */
  lemma ParseIntToString(n: int)
    ensures ParseInt(IntToString(n)) == Some(n)
  {
    var m: nat := if n < 0 then -n else n;
    var digits := NatToString(m);
    NatToStringValue(m);
    ParseMagnitudeNumeral(digits, []);
    assert digits + [] == digits;
    if n < 0 {
      ParseIntMinus(digits, m);
    } else {
      assert '0' <= digits[0] <= '9';
      ParseIntUnsigned(digits, [], m);
    }
  }

  /** `s || null` for a string: the empty string becomes null. */
  function NullIfEmpty(s: string): (r: Option<string>)
    ensures r.None? <==> s == ""
    ensures r.Some? ==> r.value == s
  {
    if s == "" then None else Some(s)
  }

  /** `s || ''` for a nullable string: null becomes the empty string. */
  function EmptyIfNull(o: Option<string>): (r: string)
    ensures o.Some? ==> r == o.value
    ensures o.None? ==> r == ""
    ensures (o.None? || o.value != "") ==> NullIfEmpty(r) == o
  {
    o.GetOr("")
  }

  /** `n?.toString() || ''` for a nullable number. */
  function OptIntToString(o: Option<int>): (r: string)
    ensures r == "" <==> o.None?
  {
    match o
    case None => ""
    case Some(n) => IntToString(n)
  }

  /** A nullable number written with `toString() || ''` reads back with `parseInt`: the empty text is NaN, that is, none. */
  lemma OptIntToStringRoundTrip(o: Option<int>)
    ensures ParseInt(OptIntToString(o)) == o
  {
    if o.Some? {
      ParseIntToString(o.value);
    }
  }

  predicate StartsWith(s: string, prefix: string) {
    |prefix| <= |s| && s[..|prefix|] == prefix
  }

  /** `s.split(sep).pop()`: what follows the last `sep`, or all of `s` when there is none. */
  function LastSegment(s: string, sep: char): (r: string)
    ensures sep !in r
    ensures |r| <= |s| && s[|s| - |r|..] == r
    ensures |r| == |s| || s[|s| - |r| - 1] == sep
  {
    if s == [] then []
    else if s[|s| - 1] == sep then []
    else LastSegment(s[..|s| - 1], sep) + [s[|s| - 1]]
  }

  /** Appending a separator and a segment without separators makes that segment the last one. */
  lemma {:induction false} LastSegmentAfterSep(prefix: string, sep: char, seg: string)
    requires sep !in seg
    ensures LastSegment(prefix + [sep] + seg, sep) == seg
  {
    var s := prefix + [sep] + seg;
    if seg == [] {
    } else {
      var shorter := seg[..|seg| - 1];
      assert s[..|s| - 1] == prefix + [sep] + shorter;
      LastSegmentAfterSep(prefix, sep, shorter);
      assert seg == shorter + [seg[|seg| - 1]];
    }
  }

  /** `s.split(sep)[0]`: what precedes the first `sep`, or all of `s` when there is none. */
  function FirstSegment(s: string, sep: char): (r: string)
    ensures sep !in r
    ensures |r| <= |s| && s[..|r|] == r
    ensures |r| == |s| || s[|r|] == sep
  {
    if s == [] || s[0] == sep then [] else [s[0]] + FirstSegment(s[1..], sep)
  }
}
