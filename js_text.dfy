/**
 * The JavaScript string and number primitives the console relies on:
 * `String(n)` for integers, `padStart`, `startsWith`, `includes`, `split`,
 * the legacy `substr`, and `parseInt` without a radix argument.
 */
module JsText {
  import opened Wrappers

  predicate IsDecimalDigit(c: char) { '0' <= c <= '9' }

  /** The value of `c` as a digit of a base up to 36 (`0-9`, `a-z`, `A-Z`); 36 when it is no digit at all. */
  function DigitValue(c: char): (v: nat)
    ensures v <= 36
    ensures IsDecimalDigit(c) <==> v < 10
  {
    if '0' <= c <= '9' then c as int - '0' as int
    else if 'a' <= c <= 'z' then c as int - 'a' as int + 10
    else if 'A' <= c <= 'Z' then c as int - 'A' as int + 10
    else 36
  }

  predicate IsRadixDigit(c: char, radix: nat) { DigitValue(c) < radix }

  function DigitChar(d: nat): (c: char)
    requires d < 10
    ensures IsDecimalDigit(c) && DigitValue(c) == d
  {
    ('0' as int + d) as char
  }

  /** Decimal rendering of a natural number, most significant digit first, with no leading zero. */
  function Digits(n: nat): (s: string)
    ensures |s| >= 1
    ensures forall i :: 0 <= i < |s| ==> IsDecimalDigit(s[i])
    ensures s[0] == '0' ==> n == 0 && s == "0"
    decreases n
  {
    if n < 10 then [DigitChar(n)] else Digits(n / 10) + [DigitChar(n % 10)]
  }

  /** JavaScript's `String(n)` for an integer (below 10^21 in magnitude, where no exponent is used). */
  function IntToString(n: int): (s: string)
    ensures n >= 0 ==> s == Digits(n)
    ensures n < 0 ==> s == "-" + Digits(-n)
  {
    if n < 0 then "-" + Digits(-n) else Digits(n)
  }

  /** The value of a string of base-`radix` digits, most significant first; 0 for the empty string. */
  function ParseRadix(s: string, radix: nat): nat
    requires forall i :: 0 <= i < |s| ==> IsRadixDigit(s[i], radix)
    decreases |s|
  {
    if s == [] then 0
    else
      var init := s[..|s| - 1];
      assert forall i :: 0 <= i < |init| ==> init[i] == s[i];
      var high := ParseRadix(init, radix);
      ProductIsNat(high, radix);
      high * radix + DigitValue(s[|s| - 1])
  }

  /** A helper for the nonlinear step of `ParseRadix`: the product of two naturals is a natural. */
  lemma ProductIsNat(a: nat, b: nat)
    ensures a * b >= 0
  {
  }

  /** Rendering a natural number in decimal and reading it back gives the number. */
  lemma {:induction false} DigitsRoundTrip(n: nat)
    ensures ParseRadix(Digits(n), 10) == n
    decreases n
  {
    if n >= 10 {
      DigitsRoundTrip(n / 10);
      var s := Digits(n);
      assert s[..|s| - 1] == Digits(n / 10);
    }
  }

  /** Leading zeros do not change the value of a digit string. */
  lemma {:induction false} LeadingZeros(z: string, s: string, radix: nat)
    requires radix >= 1
    requires forall i :: 0 <= i < |z| ==> z[i] == '0'
    requires forall i :: 0 <= i < |s| ==> IsRadixDigit(s[i], radix)
    ensures forall i :: 0 <= i < |z + s| ==> IsRadixDigit((z + s)[i], radix)
    ensures ParseRadix(z + s, radix) == ParseRadix(s, radix)
    decreases |s|
  {
    if s == [] {
      assert z + s == z;
      Zeros(z, radix);
    } else {
      var u := z + s;
      assert u[..|u| - 1] == z + s[..|s| - 1];
      LeadingZeros(z, s[..|s| - 1], radix);
    }
  }

  lemma {:induction false} Zeros(z: string, radix: nat)
    requires radix >= 1
    requires forall i :: 0 <= i < |z| ==> z[i] == '0'
    ensures ParseRadix(z, radix) == 0
    decreases |z|
  {
    if z != [] {
      Zeros(z[..|z| - 1], radix);
    }
  }

  function Repeat(c: char, k: nat): (r: string)
    ensures |r| == k
    ensures forall i :: 0 <= i < k ==> r[i] == c
  {
    seq(k, _ => c)
  }

  /** `s.padStart(width, fill)` for a one-character fill: never truncates, only prepends. */
  function PadStart(s: string, width: nat, fill: char): (r: string)
    ensures |r| == if |s| >= width then |s| else width
    ensures r[|r| - |s|..] == s
    ensures forall i :: 0 <= i < |r| - |s| ==> r[i] == fill
  {
    if |s| >= width then s else Repeat(fill, width - |s|) + s
  }

  /** Padding decimal digits with '0' keeps them decimal digits and keeps their value. */
  lemma PaddedValue(d: string, width: nat)
    requires forall i :: 0 <= i < |d| ==> IsDecimalDigit(d[i])
    ensures forall i :: 0 <= i < |PadStart(d, width, '0')| ==> IsDecimalDigit(PadStart(d, width, '0')[i])
    ensures ParseRadix(PadStart(d, width, '0'), 10) == ParseRadix(d, 10)
  {
    var p := PadStart(d, width, '0');
    var z := p[..|p| - |d|];
    assert p == z + d;
    assert forall i :: 0 <= i < |d| ==> IsRadixDigit(d[i], 10);
    LeadingZeros(z, d, 10);
  }

  predicate StartsWith(s: string, prefix: string) {
    |prefix| <= |s| && s[..|prefix|] == prefix
  }

  /** `s.includes(q)`: `q` occurs in `s` as a contiguous piece (the empty string occurs everywhere). */
  predicate Contains(s: string, q: string) {
    exists i :: 0 <= i <= |s| - |q| && OccursAt(s, q, i)
  }

  predicate OccursAt(s: string, q: string, i: int) {
    0 <= i <= |s| - |q| && s[i..i + |q|] == q
  }

  /** Position of the first `c` in `s`. */
  function IndexOf(s: string, c: char): (i: nat)
    requires c in s
    ensures i < |s| && s[i] == c
    ensures c !in s[..i]
    decreases |s|
  {
    if s[0] == c then 0 else 1 + IndexOf(s[1..], c)
  }

  /** `s.split(sep)` for a one-character separator. */
  function Split(s: string, sep: char): (parts: seq<string>)
    ensures |parts| >= 1
    ensures forall k :: 0 <= k < |parts| ==> sep !in parts[k]
    decreases |s|
  {
    if sep !in s then [s]
    else
      var i := IndexOf(s, sep);
      [s[..i]] + Split(s[i + 1..], sep)
  }

  /** `parts.join(sep)`: the inverse of `Split`. */
  function Join(parts: seq<string>, sep: char): string
    decreases |parts|
  {
    if parts == [] then ""
    else if |parts| == 1 then parts[0]
    else parts[0] + [sep] + Join(parts[1..], sep)
  }

  /** Splitting and joining back with the same separator gives the original string. */
  lemma {:induction false} SplitJoin(s: string, sep: char)
    ensures Join(Split(s, sep), sep) == s
    decreases |s|
  {
    if sep in s {
      var i := IndexOf(s, sep);
      SplitJoin(s[i + 1..], sep);
      var parts := Split(s, sep);
      assert parts[1..] == Split(s[i + 1..], sep);
      assert s == s[..i] + [sep] + s[i + 1..];
    }
  }

  /** The first piece of `a + [sep] + b` split at `sep`, when `a` has no `sep`, is `a`. */
  lemma SplitFirst(a: string, sep: char, b: string)
    requires sep !in a
    ensures |Split(a + [sep] + b, sep)| >= 2
    ensures Split(a + [sep] + b, sep)[0] == a
    ensures Split(a + [sep] + b, sep)[1] == Split(b, sep)[0]
  {
    var s := a + [sep] + b;
    assert s[|a|] == sep;
    var i := IndexOf(s, sep);
    assert i == |a|;
    assert s[..i] == a;
    assert s[i + 1..] == b;
  }

  /** The ECMAScript WhiteSpace and LineTerminator code points that `parseInt` skips. */
  predicate IsJsWhiteSpace(c: char) {
    var k := c as int;
    k == 0x09 || k == 0x0A || k == 0x0B || k == 0x0C || k == 0x0D || k == 0x20 || k == 0xA0 ||
    k == 0x1680 || (0x2000 <= k <= 0x200A) || k == 0x2028 || k == 0x2029 || k == 0x202F ||
    k == 0x205F || k == 0x3000 || k == 0xFEFF
  }

  /** `s` without its leading white space. */
  function TrimStart(s: string): (r: string)
    ensures |r| <= |s| && r == s[|s| - |r|..]
    ensures forall i :: 0 <= i < |s| - |r| ==> IsJsWhiteSpace(s[i])
    ensures r != [] ==> !IsJsWhiteSpace(r[0])
    decreases |s|
  {
    if s != [] && IsJsWhiteSpace(s[0]) then TrimStart(s[1..]) else s
  }

  /** The longest prefix of `s` made of base-`radix` digits. */
  function RadixPrefix(s: string, radix: nat): (p: string)
    ensures |p| <= |s| && p == s[..|p|]
    ensures forall i :: 0 <= i < |p| ==> IsRadixDigit(p[i], radix)
    ensures |p| < |s| ==> !IsRadixDigit(s[|p|], radix)
    decreases |s|
  {
    if s != [] && IsRadixDigit(s[0], radix) then [s[0]] + RadixPrefix(s[1..], radix) else []
  }

  /**
   * JavaScript's `parseInt(s)` with no radix argument; `None` stands for `NaN`.
   * Leading white space is skipped, one sign is accepted, a `0x`/`0X` prefix
   * switches to base 16, and parsing stops at the first character that is not a digit.
   */
  function ParseInt(s: string): Option<int> {
    ParseSigned(TrimStart(s))
  }

  /** An optional sign, then the magnitude. */
  function ParseSigned(t: string): Option<int> {
    if |t| > 0 && (t[0] == '-' || t[0] == '+') then
      match ParseMagnitude(t[1..])
      case None => None
      case Some(v) =>
        var m: int := v;
        Some(if t[0] == '-' then -m else m)
    else ParseMagnitude(t)
  }

  /** `0x`/`0X` and hexadecimal digits, or decimal digits; `None` when no digit follows. */
  function ParseMagnitude(u: string): Option<nat> {
    var hex := |u| >= 2 && u[0] == '0' && (u[1] == 'x' || u[1] == 'X');
    var radix := if hex then 16 else 10;
    var digits := RadixPrefix(if hex then u[2..] else u, radix);
    if digits == [] then None else Some(ParseRadix(digits, radix))
  }

  /**
   * `parseInt` reads back what `String(n)` writes, for every natural number,
   * also when other text follows that is no digit and no hexadecimal marker.
   */
  lemma ParseIntDigits(n: nat, rest: string)
    requires rest == [] || (!IsDecimalDigit(rest[0]) && rest[0] != 'x' && rest[0] != 'X')
    ensures ParseInt(Digits(n) + rest) == Some(n)
  {
    ParseDecimal(Digits(n), rest);
    DigitsRoundTrip(n);
  }

  /** Decimal digits with no superfluous leading zero, then no digit: `parseInt` reads the digits' value. */
  lemma ParseDecimal(d: string, rest: string)
    requires |d| >= 1 && forall i :: 0 <= i < |d| ==> IsDecimalDigit(d[i])
    requires d[0] == '0' ==> d == "0"
    requires rest == [] || (!IsDecimalDigit(rest[0]) && rest[0] != 'x' && rest[0] != 'X')
    ensures forall i :: 0 <= i < |d| ==> IsRadixDigit(d[i], 10)
    ensures ParseInt(d + rest) == Some(ParseRadix(d, 10))
  {
    var s := d + rest;
    assert s[0] == d[0];
    UnsignedDigitStart(s);
    DecimalMagnitude(d, rest);
  }

  /** Text that starts with a digit has no white space or sign for `parseInt` to skip. */
  lemma UnsignedDigitStart(s: string)
    requires s != [] && IsDecimalDigit(s[0])
    ensures ParseInt(s) == ParseMagnitude(s)
  {
    assert !IsJsWhiteSpace(s[0]);
    assert TrimStart(s) == s;
  }

  lemma DecimalMagnitude(d: string, rest: string)
    requires |d| >= 1 && forall i :: 0 <= i < |d| ==> IsDecimalDigit(d[i])
    requires d[0] == '0' ==> d == "0"
    requires rest == [] || (!IsDecimalDigit(rest[0]) && rest[0] != 'x' && rest[0] != 'X')
    ensures forall i :: 0 <= i < |d| ==> IsRadixDigit(d[i], 10)
    ensures ParseMagnitude(d + rest) == Some(ParseRadix(d, 10))
  {
    var s := d + rest;
    assert !(|s| >= 2 && s[0] == '0' && (s[1] == 'x' || s[1] == 'X')) by {
      if |s| >= 2 && s[0] == '0' {
        assert s[1] == rest[0];
      }
    }
    DigitsThenPrefix(d, rest, 10);
  }

  /** The longest digit prefix of `s + rest` is `s` when `s` is all digits and `rest` does not start with one. */
  lemma {:induction false} DigitsThenPrefix(s: string, rest: string, radix: nat)
    requires forall i :: 0 <= i < |s| ==> IsRadixDigit(s[i], radix)
    requires rest == [] || !IsRadixDigit(rest[0], radix)
    ensures RadixPrefix(s + rest, radix) == s
    decreases |s|
  {
    if s != [] {
      assert (s + rest)[1..] == s[1..] + rest;
      DigitsThenPrefix(s[1..], rest, radix);
    }
  }
}
