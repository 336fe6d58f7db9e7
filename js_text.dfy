/** The JavaScript string primitives the handlers rely on: `trim`, `toLowerCase`,
    `includes`, `parseInt` and `Number.prototype.toString` on integers.
    Strings are sequences of code points. */
module JsText {
  import opened Wrappers

  /** The WhiteSpace and LineTerminator code points of ECMA-262 (sections 12.2 and 12.3),
      the set that `String.prototype.trim` and `parseInt` skip. */
  predicate IsWhitespace(c: char) {
    ('\t' <= c <= '\r') || c == ' ' || c == '\U{00A0}' || c == '\U{1680}'
    || ('\U{2000}' <= c <= '\U{200A}') || c == '\U{2028}' || c == '\U{2029}'
    || c == '\U{202F}' || c == '\U{205F}' || c == '\U{3000}' || c == '\U{FEFF}'
  }

  /** `s` is made of whitespace only (the empty string included). This is the blank check
      `!s.trim()` of every form: `Trim` ensures the trimmed text is empty exactly then. */
  predicate AllWhitespace(s: string) {
    forall i :: 0 <= i < |s| ==> IsWhitespace(s[i])
  }

  /** Drops leading whitespace: the result is a suffix of `s`, what was dropped is all
      whitespace, and what is left does not start with whitespace. */
  function TrimStart(s: string): (r: string)
    ensures |r| <= |s| && r == s[|s| - |r|..]
    ensures forall i :: 0 <= i < |s| - |r| ==> IsWhitespace(s[i])
    ensures r == [] || !IsWhitespace(r[0])
  {
    if s != [] && IsWhitespace(s[0]) then TrimStart(s[1..]) else s
  }

  /** Drops trailing whitespace: the result is a prefix of `s`, what was dropped is all
      whitespace, and what is left does not end with whitespace. */
  function TrimEnd(s: string): (r: string)
    ensures |r| <= |s| && r == s[..|r|]
    ensures forall i :: |r| <= i < |s| ==> IsWhitespace(s[i])
    ensures r == [] || !IsWhitespace(r[|r| - 1])
  {
    if s != [] && IsWhitespace(s[|s| - 1]) then TrimEnd(s[..|s| - 1]) else s
  }

  /** `String.prototype.trim`: what is left has no whitespace at either end, and it is
      empty exactly when `s` is all whitespace. */
  function Trim(s: string): (r: string)
    ensures |r| <= |s|
    ensures r == [] <==> AllWhitespace(s)
    ensures r != [] ==> !IsWhitespace(r[0]) && !IsWhitespace(r[|r| - 1])
  {
    var t := TrimStart(s);
    var r := TrimEnd(t);
    assert r != [] ==> r[0] == t[0];
    assert AllWhitespace(s) ==> t == [] by {
      if t != [] { assert t[0] == s[|s| - |t|]; }
    }
    r
  }

  /** The trimmed text is the slice of the input that starts at `k`, with only whitespace
      before it and after it. */
  lemma {:induction false} TrimIsSlice(s: string) returns (k: nat)
    ensures k + |Trim(s)| <= |s| && Trim(s) == s[k..k + |Trim(s)|]
    ensures forall i :: 0 <= i < k ==> IsWhitespace(s[i])
    ensures forall i :: k + |Trim(s)| <= i < |s| ==> IsWhitespace(s[i])
  {
    var t := TrimStart(s);
    var r := TrimEnd(t);
    k := |s| - |t|;
    PrefixOfSuffix(s, t, r, k);
  }

  /** A prefix `r` of the suffix `t` of `s` that starts at `k` is the slice of `s` at `k`. */
  lemma PrefixOfSuffix(s: string, t: string, r: string, k: nat)
    requires k + |t| == |s| && t == s[k..] && |r| <= |t| && r == t[..|r|]
    ensures r == s[k..k + |r|]
    ensures forall i :: k + |r| <= i < |s| ==> s[i] == t[i - k]
  {
  }

  /** Text with no whitespace at either end is left as it is by `trim`. */
  lemma TrimOfTrimmed(r: string)
    requires r != [] ==> !IsWhitespace(r[0]) && !IsWhitespace(r[|r| - 1])
    ensures Trim(r) == r
  {
    if r != [] {
      TrimStartNoop(r);
      TrimEndNoop(r);
    }
  }

  /** ASCII part of `toLowerCase`. */
  function LowerChar(c: char): char {
    if 'A' <= c <= 'Z' then (c as int - 'A' as int + 'a' as int) as char else c
  }

  /** `String.prototype.toLowerCase`, restricted to the ASCII letters: no capital is left,
      each capital becomes the letter 32 code points above it, and every other character
      is kept. */
  function ToLower(s: string): (r: string)
    ensures |r| == |s|
    ensures forall i :: 0 <= i < |r| ==> !('A' <= r[i] <= 'Z')
    ensures forall i :: 0 <= i < |s| ==>
      if 'A' <= s[i] <= 'Z' then r[i] as int == s[i] as int + 32 else r[i] == s[i]
  {
    seq(|s|, i requires 0 <= i < |s| => LowerChar(s[i]))
  }

  /** `c` and `d` are the same character up to ASCII letter case. */
  predicate SameLetterUpToCase(c: char, d: char) {
    c == d
    || ('A' <= c <= 'Z' && d as int == c as int + 32)
    || ('A' <= d <= 'Z' && c as int == d as int + 32)
  }

  /** `a` and `b` spell the same text up to ASCII letter case. */
  predicate SameUpToCase(a: string, b: string) {
    |a| == |b| && forall i :: 0 <= i < |a| ==> SameLetterUpToCase(a[i], b[i])
  }

  /** Texts that differ only in letter case lower to the same text. */
  lemma ToLowerIgnoresCase(a: string, b: string)
    requires SameUpToCase(a, b)
    ensures ToLower(a) == ToLower(b)
  {
    var la, lb := ToLower(a), ToLower(b);
    forall i | 0 <= i < |a| ensures la[i] == lb[i] {
      assert SameLetterUpToCase(a[i], b[i]);
      assert la[i] as int == lb[i] as int;
    }
  }

  predicate StartsWith(s: string, prefix: string) {
    |prefix| <= |s| && s[..|prefix|] == prefix
  }

  /** `String.prototype.includes`: `needle` occurs somewhere in `s`. */
  predicate Contains(s: string, needle: string)
    decreases |s|
  {
    StartsWith(s, needle) || (s != [] && Contains(s[1..], needle))
  }

  /** `needle` occurs in `s` starting at index `i`. */
  ghost predicate OccursAt(s: string, needle: string, i: nat) {
    i + |needle| <= |s| && s[i..i + |needle|] == needle
  }

  /** The search `Contains` does agrees with the positional definition of a substring,
      in both directions. */
  lemma {:induction false} ContainsIffOccurs(s: string, needle: string)
    ensures Contains(s, needle) <==> exists i: nat :: OccursAt(s, needle, i)
    decreases |s|
  {
    if StartsWith(s, needle) {
      assert OccursAt(s, needle, 0);
    } else {
      assert !OccursAt(s, needle, 0);
      if s != [] {
        ContainsIffOccurs(s[1..], needle);
        forall i: nat | OccursAt(s[1..], needle, i) ensures OccursAt(s, needle, i + 1) {
          assert s[i + 1..i + 1 + |needle|] == s[1..][i..i + |needle|];
        }
        forall i: nat | OccursAt(s, needle, i) ensures i >= 1 && OccursAt(s[1..], needle, i - 1) {
          assert s[1..][i - 1..i - 1 + |needle|] == s[i..i + |needle|];
        }
      }
    }
  }

  /** Every string includes the empty string. */
  lemma ContainsEmpty(s: string)
    ensures Contains(s, "")
  {
    assert StartsWith(s, "");
  }

  /** The value of a character read as a digit, as `parseInt` reads it: '0'..'9' are 0..9,
      letters of either case are 10..35, anything else is 36 (a digit in no radix). */
  function DigitValue(c: char): nat {
    if '0' <= c <= '9' then c as nat - '0' as nat
    else if 'a' <= c <= 'z' then c as nat - 'a' as nat + 10
    else if 'A' <= c <= 'Z' then c as nat - 'A' as nat + 10
    else 36
  }

  predicate IsDigit(c: char, radix: nat) {
    DigitValue(c) < radix
  }

  /** Length of the longest prefix of `s` made of digits of `radix`. */
  function DigitPrefixLength(s: string, radix: nat): (n: nat)
    ensures n <= |s|
    ensures forall i :: 0 <= i < n ==> IsDigit(s[i], radix)
    ensures n < |s| ==> !IsDigit(s[n], radix)
  {
    if s != [] && IsDigit(s[0], radix) then 1 + DigitPrefixLength(s[1..], radix) else 0
  }

  /** The number that the digit string `digits` denotes in `radix` (10 or 16, the two
      radixes `parseInt` picks without a radix argument). */
  function DigitsValue(digits: string, radix: nat): nat
    requires radix == 10 || radix == 16
    requires forall i :: 0 <= i < |digits| ==> IsDigit(digits[i], radix)
  {
    if digits == [] then 0
    else
      var high := DigitsValue(digits[..|digits| - 1], radix);
      (if radix == 16 then 16 * high else 10 * high) + DigitValue(digits[|digits| - 1])
  }

  /** The digits after the sign: a `0x`/`0X` prefix switches to radix 16, then the longest
      run of digits of the radix is read; `None` when that run is empty. */
  function ParseMagnitude(u: string): Option<nat> {
    var hex := |u| >= 2 && u[0] == '0' && (u[1] == 'x' || u[1] == 'X');
    var radix := if hex then 16 else 10;
    var body := if hex then u[2..] else u;
    var n := DigitPrefixLength(body, radix);
    if n == 0 then None else Some(DigitsValue(body[..n], radix))
  }

  /** `parseInt(s)` with no radix argument (section 19.2.5 of ECMA-262): skip leading
      whitespace, then read a signed magnitude; `None` is `NaN`. */
  function ParseInt(s: string): Option<int> {
    ParseSigned(TrimStart(s))
  }

  /** An optional sign, then the magnitude. A negative zero is returned as 0. */
  function ParseSigned(t: string): Option<int> {
    var negative := t != [] && t[0] == '-';
    var unsigned := if t != [] && (t[0] == '-' || t[0] == '+') then t[1..] else t;
    match ParseMagnitude(unsigned)
    case None => None
    case Some(m) => Some(if negative then -(m as int) else m)
  }

  function DecimalDigit(d: nat): (c: char)
    requires d < 10
    ensures IsDigit(c, 10) && DigitValue(c) == d
  {
    ('0' as nat + d) as char
  }

  /** Decimal text of a natural number, most significant digit first. */
  function NatToString(n: nat): string
    decreases n
  {
    if n < 10 then [DecimalDigit(n)] else NatToString(n / 10) + [DecimalDigit(n % 10)]
  }

  /** `Number.prototype.toString()` of an integer, in plain decimal. JavaScript writes a
      magnitude of 1e21 or more in exponent form instead; that form is not modelled. */
  function IntToString(n: int): string {
    if n < 0 then "-" + NatToString(-n) else NatToString(n)
  }

  /** The decimal text of `n` is a non-empty run of decimal digits worth `n`, with no
      leading zero unless it is the single digit of 0. */
  lemma {:induction false} NatToStringDigits(n: nat)
    ensures var s := NatToString(n);
      s != [] && (forall i :: 0 <= i < |s| ==> IsDigit(s[i], 10))
      && DigitsValue(s, 10) == n
      && (s[0] == '0' ==> n == 0 && |s| == 1)
    decreases n
  {
    var s := NatToString(n);
    if n >= 10 {
      var hi := NatToString(n / 10);
      NatToStringDigits(n / 10);
      assert s[..|s| - 1] == hi;
      assert s[0] == hi[0];
    }
  }

  /** A run of decimal digits without a leading `0x` is read whole, in radix 10. */
  lemma ParseMagnitudeOfDecimal(n: nat)
    ensures ParseMagnitude(NatToString(n)) == Some(n)
  {
    var digits := NatToString(n);
    NatToStringDigits(n);
    assert !(|digits| >= 2 && digits[0] == '0');
    var k := DigitPrefixLength(digits, 10);
    assert k == |digits|;
    assert digits[..k] == digits;
  }

  /** Leading whitespace skipping stops at once on a string that starts with something else. */
  lemma TrimStartNoop(s: string)
    requires s != [] && !IsWhitespace(s[0])
    ensures TrimStart(s) == s
  {
  }

  /** A decimal digit is neither whitespace nor a sign. */
  lemma DecimalDigitIsPlain(c: char)
    requires IsDigit(c, 10)
    ensures '0' <= c <= '9' && !IsWhitespace(c) && c != '-' && c != '+'
  {
  }

  /** Text that starts with a decimal digit is read as a bare magnitude. */
  lemma ParseIntOfDigitStart(t: string, m: nat)
    requires t != [] && IsDigit(t[0], 10)
    requires ParseMagnitude(t) == Some(m)
    ensures ParseInt(t) == Some(m)
  {
    DecimalDigitIsPlain(t[0]);
    TrimStartNoop(t);
  }

  /** Trailing whitespace trimming stops at once on a string that ends with something else. */
  lemma TrimEndNoop(s: string)
    requires s != [] && !IsWhitespace(s[|s| - 1])
    ensures TrimEnd(s) == s
  {
  }

  /** `parseInt` reads a sign-free decimal text as the number it denotes. */
  lemma ParseIntOfNatToString(m: nat)
    ensures ParseInt(NatToString(m)) == Some(m)
  {
    var digits := NatToString(m);
    NatToStringDigits(m);
    ParseMagnitudeOfDecimal(m);
    ParseIntOfDigitStart(digits, m);
  }

  /** `parseInt` reads `-` followed by a decimal text as the negated number. */
  lemma ParseIntOfNegated(m: nat)
    ensures ParseInt("-" + NatToString(m)) == Some(-(m as int))
  {
    ParseMagnitudeOfDecimal(m);
    ParseIntOfMinus(NatToString(m), m);
  }

  /** A `-` in front of a magnitude negates it. */
  lemma ParseIntOfMinus(u: string, m: nat)
    requires ParseMagnitude(u) == Some(m)
    ensures ParseInt("-" + u) == Some(-(m as int))
  {
    var s := "-" + u;
    assert s[0] == '-' && s[1..] == u;
    assert !IsWhitespace('-');
    TrimStartNoop(s);
  }

  /** `parseInt` reads back what `toString` wrote, for every integer. */
  lemma ParseIntOfIntToString(n: int)
    ensures ParseInt(IntToString(n)) == Some(n)
  {
    var m: nat := if n < 0 then -n else n;
    if n < 0 {
      ParseIntOfNegated(m);
      assert IntToString(n) == "-" + NatToString(m);
      assert -(m as int) == n;
    } else {
      ParseIntOfNatToString(m);
      assert IntToString(n) == NatToString(m);
    }
  }

  /** Whitespace in front of the text does not change what `parseInt` reads. */
  lemma {:induction false} ParseIntSkipsWhitespace(ws: string, s: string)
    requires AllWhitespace(ws)
    ensures ParseInt(ws + s) == ParseInt(s)
  {
    TrimStartSkipsWhitespace(ws, s);
  }

  lemma {:induction false} TrimStartSkipsWhitespace(ws: string, s: string)
    requires AllWhitespace(ws)
    ensures TrimStart(ws + s) == TrimStart(s)
  {
    if ws == [] {
      assert ws + s == s;
    } else {
      assert (ws + s)[0] == ws[0];
      assert (ws + s)[1..] == ws[1..] + s;
      TrimStartSkipsWhitespace(ws[1..], s);
    }
  }

  /** `parseInt` stops at the first character that is not a digit: a fraction is cut
      off, not rounded. */
  lemma ParseIntTruncates()
    ensures ParseInt("3.7") == Some(3)
  {
    TrimStartNoop("3.7");
    assert DigitPrefixLength("3.7", 10) == 1 by { assert "3.7"[1..] == ".7"; }
    assert DigitsValue("3", 10) == 3 by { assert "3"[..0] == ""; }
    assert "3.7"[..1] == "3";
  }

  /** An exponent is not read either. */
  lemma ParseIntIgnoresExponent()
    ensures ParseInt("1e3") == Some(1)
  {
    TrimStartNoop("1e3");
    assert DigitPrefixLength("1e3", 10) == 1 by { assert "1e3"[1..] == "e3"; }
    assert DigitsValue("1", 10) == 1 by { assert "1"[..0] == ""; }
    assert "1e3"[..1] == "1";
  }

  /** `-` before a text worth zero (`-0`, `-00`, `-0x0`) parses to zero, which is not negative. */
  lemma ParseIntNegativeZero(u: string)
    requires ParseMagnitude(u) == Some(0)
    ensures ParseInt("-" + u) == Some(0)
  {
    ParseIntOfMinus(u, 0);
  }

  /** A `0x` prefix switches to hexadecimal. */
  lemma ParseIntHex()
    ensures ParseInt("0x1A") == Some(26)
  {
    var s := "0x1A";
    TrimStartNoop(s);
    var body := s[2..];
    assert body == "1A";
    assert DigitPrefixLength(body, 16) == 2 by {
      assert body[1..] == "A" && body[1..][1..] == "";
    }
    assert body[..2] == "1A" && "1A"[..1] == "1" && "1"[..0] == "";
    assert DigitsValue("1A", 16) == 26;
    assert ParseMagnitude(s) == Some(26);
    assert ParseSigned(s) == Some(26);
  }

  /** Text with no digit to read is `NaN`: empty text, letters, a lone sign. */
  lemma ParseIntNaN()
    ensures ParseInt("") == None
    ensures ParseInt("abc") == None
    ensures ParseInt("-") == None
  {
    assert ParseMagnitude("") == None;
    TrimStartNoop("abc");
    assert DigitPrefixLength("abc", 10) == 0;
    assert ParseMagnitude("abc") == None;
    TrimStartNoop("-");
    assert "-"[1..] == "";
  }
}
