/**
  The pieces of Go's number and string formatting that the listing output relies
  on: the conversion of an integer to float64 (round to nearest, ties to even),
  fixed-point rendering with one decimal (strconv.FormatFloat with 'f' and
  precision 1) and the `%q` verb of fmt (strconv.Quote) on ASCII text.
 */
module GoFormat {

  /** 2^53: every integer of smaller magnitude is exactly a float64. */
  const Pow53: nat := 0x20_0000_0000_0000

  // ---------------------------------------------------------------------------
  // Rounding

  /**
    m / d rounded to the nearest integer, ties to the even neighbour: the rounding
    rule of IEEE 754 conversions and of strconv's exact decimal rounding.
   */
  function RoundHalfEven(m: nat, d: nat): nat
    requires d > 0
  {
    var q0, r := m / d, m % d;
    if 2 * r < d then q0
    else if 2 * r > d then q0 + 1
    else if q0 % 2 == 0 then q0
    else q0 + 1
  }

  /** The rounded quotient is within half a unit of m / d, and even when m / d lies exactly halfway. */
  lemma RoundHalfEvenNearest(m: nat, d: nat)
    requires d > 0
    ensures var q := RoundHalfEven(m, d);
      && 2 * (m - q * d) <= d && 2 * (q * d - m) <= d
      && ((2 * (m - q * d) == d || 2 * (q * d - m) == d) ==> q % 2 == 0)
  {
    var q0, r := m / d, m % d;
    assert m == q0 * d + r && 0 <= r < d;
    assert (q0 + 1) * d == q0 * d + d;
  }

  /** Any integer satisfying RoundHalfEven's contract is its result: the contract pins the result down. */
  lemma RoundHalfEvenUnique(m: nat, d: nat, q: int)
    requires d > 0
    requires 2 * (m - q * d) <= d && 2 * (q * d - m) <= d
    requires (2 * (m - q * d) == d || 2 * (q * d - m) == d) ==> q % 2 == 0
    ensures q == RoundHalfEven(m, d)
  {
    var p := RoundHalfEven(m, d);
    RoundHalfEvenNearest(m, d);
    SubMul(p, q, d);
    CloseMultiples(m - q * d, m - p * d, p - q, d);
  }

  lemma SubMul(p: int, q: int, d: int)
    ensures p * d - q * d == (p - q) * d
  {
  }

  /**
    Two offsets within d/2 of zero that differ by a multiple k of d: k is -1, 0 or 1,
    and when it is not 0 both sit exactly at the half.
   */
  lemma CloseMultiples(r: int, s: int, k: int, d: int)
    requires d > 0 && -d <= 2 * r <= d && -d <= 2 * s <= d
    requires r - s == k * d
    ensures -1 <= k <= 1
    ensures k == 1 ==> 2 * r == d && 2 * s == -d
    ensures k == -1 ==> 2 * r == -d && 2 * s == d
  {
    if k >= 2 {
      MulAtLeastTwice(k, d);
    } else if k <= -2 {
      MulAtLeastTwice(-k, d);
    }
  }

  lemma MulAtLeastTwice(x: int, d: nat)
    requires x >= 2
    ensures x * d >= 2 * d
  {
  }

  /** A quotient between two whole numbers a and b rounds to a number between them. */
  lemma RoundHalfEvenBetween(m: nat, d: nat, a: nat, b: nat)
    requires d > 0 && a * d <= m <= b * d
    ensures a <= RoundHalfEven(m, d) <= b
  {
    var q := RoundHalfEven(m, d);
    RoundHalfEvenNearest(m, d);
    SubMul(a, q, d);
    SubMul(q, b, d);
    FactorAtMostHalf(a - q, d);
    FactorAtMostHalf(q - b, d);
  }

  /** A multiple x * d of a positive d that is at most d / 2 has x <= 0. */
  lemma FactorAtMostHalf(x: int, d: int)
    requires d > 0 && 2 * (x * d) <= d
    ensures x <= 0
  {
  }

  /** Exact quotients are not rounded. */
  lemma RoundHalfEvenExact(k: nat, d: nat)
    requires d > 0
    ensures RoundHalfEven(k * d, d) == k
  {
    RoundHalfEvenUnique(k * d, d, k);
  }

  // ---------------------------------------------------------------------------
  // float64 of an integer

  /**
    The spacing of float64 values around the magnitude m: 1 below 2^53, doubling at
    each further power of two (a float64 keeps 53 significant bits).
   */
  function Ulp(m: nat): nat
    decreases m
  {
    if m < Pow53 then 1 else 2 * Ulp(m / 2)
  }

  /** m has at most 53 significant bits in units of Ulp(m), and at least 53 from 2^53 up. */
  lemma {:induction false} UlpBounds(m: nat)
    ensures Ulp(m) >= 1 && m < Pow53 * Ulp(m)
    ensures m >= Pow53 ==> Pow53 * Ulp(m) <= 2 * m
    decreases m
  {
    if m >= Pow53 {
      UlpBounds(m / 2);
    }
  }

  /**
    The float64 nearest to the magnitude m, ties to even: Go's float64(n) for |n|.
    Below 2^53 every integer is a float64.
   */
  function Float64Of(m: nat): nat {
    if m < Pow53 then m
    else
      UlpBounds(m);
      var u := Ulp(m);
      RoundHalfEven(m, u) * u
  }

  /** float64(m) is a multiple of the spacing within half a spacing of m. */
  lemma Float64OfNearest(m: nat)
    ensures var f := Float64Of(m);
      && 2 * (f - m) <= Ulp(m) && 2 * (m - f) <= Ulp(m)
      && f % Ulp(m) == 0
  {
    UlpBounds(m);
    var u := Ulp(m);
    if m >= Pow53 {
      RoundHalfEvenNearest(m, u);
      MultipleMod(RoundHalfEven(m, u), u);
    }
  }

  lemma MultipleMod(q: nat, u: nat)
    requires u > 0
    ensures (q * u) % u == 0
  {
    var r := (q * u) % u;
    assert q * u == ((q * u) / u) * u + r;
    assert (q - (q * u) / u) * u == r;
    if q - (q * u) / u >= 1 {
      MulAtLeastTwice(q - (q * u) / u + 1, u);
    } else if q - (q * u) / u <= -1 {
      MulAtLeastTwice((q * u) / u - q + 1, u);
    }
  }

  // ---------------------------------------------------------------------------
  // Decimal digits

  predicate IsDigit(c: char) {
    '0' <= c <= '9'
  }

  function DigitChar(d: nat): (c: char)
    requires d < 10
    ensures IsDigit(c)
  {
    (('0' as int) + d) as char
  }

  function DigitValue(c: char): (d: nat)
    requires IsDigit(c)
    ensures d < 10 && DigitChar(d) == c
  {
    (c as int) - ('0' as int)
  }

  /** strconv.Itoa on a natural number: its decimal digits, without leading zeros. */
  function NatToString(n: nat): (s: string)
    ensures |s| >= 1
    ensures forall i :: 0 <= i < |s| ==> IsDigit(s[i])
    ensures s[0] == '0' ==> n == 0
    decreases n
  {
    if n < 10 then [DigitChar(n)]
    else NatToString(n / 10) + [DigitChar(n % 10)]
  }

  /** The value of a string of decimal digits. */
  function ParseNat(s: string): nat
    requires forall i :: 0 <= i < |s| ==> IsDigit(s[i])
    decreases |s|
  {
    if s == [] then 0
    else
      var init := s[..|s| - 1];
      assert forall i :: 0 <= i < |init| ==> init[i] == s[i];
      10 * ParseNat(init) + DigitValue(s[|s| - 1])
  }

  /** Reading the digits back gives the number: the decimal rendering is lossless. */
  lemma {:induction false} ParseNatToString(n: nat)
    ensures ParseNat(NatToString(n)) == n
    decreases n
  {
    var s := NatToString(n);
    if n < 10 {
      assert s[..0] == [];
    } else {
      ParseNatToString(n / 10);
      assert s[..|s| - 1] == NatToString(n / 10);
    }
  }

  /** NatToString is injective. */
  lemma NatToStringInjective(m: nat, n: nat)
    requires NatToString(m) == NatToString(n)
    ensures m == n
  {
    ParseNatToString(m);
    ParseNatToString(n);
  }

  /**
    strconv.FormatFloat(v, 'f', 1, 64) for a value whose magnitude, rounded to
    tenths, is `tenths`: the sign, the integer digits, a '.', and the tenths digit.
   */
  function FixedOneDecimal(negative: bool, tenths: nat): (s: string)
    ensures |s| >= 3 && s[|s| - 2] == '.' && IsDigit(s[|s| - 1])
  {
    (if negative then "-" else "") + NatToString(tenths / 10) + "." + [DigitChar(tenths % 10)]
  }

  /** The rendering with one decimal is lossless: sign and tenths can be read back. */
  lemma FixedOneDecimalInjective(n1: bool, t1: nat, n2: bool, t2: nat)
    requires FixedOneDecimal(n1, t1) == FixedOneDecimal(n2, t2)
    ensures n1 == n2 && t1 == t2
  {
    var s := FixedOneDecimal(n1, t1);
    var a1, a2 := NatToString(t1 / 10), NatToString(t2 / 10);
    assert s[|s| - 1] == DigitChar(t1 % 10) == DigitChar(t2 % 10);
    assert DigitValue(DigitChar(t1 % 10)) == t1 % 10;
    assert DigitValue(DigitChar(t2 % 10)) == t2 % 10;
    assert IsDigit(a1[0]) && IsDigit(a2[0]);
    var p1, p2 := (if n1 then "-" else ""), (if n2 then "-" else "");
    assert s == p1 + a1 + "." + [DigitChar(t1 % 10)];
    assert s == p2 + a2 + "." + [DigitChar(t2 % 10)];
    assert s[0] == (if n1 then '-' else a1[0]);
    assert s[0] == (if n2 then '-' else a2[0]);
    assert n1 == n2;
    assert p1 + a1 == s[..|s| - 2] == p2 + a2;
    assert a1 == (p1 + a1)[|p1|..];
    assert a2 == (p2 + a2)[|p2|..];
    NatToStringInjective(t1 / 10, t2 / 10);
  }

  // ---------------------------------------------------------------------------
  // Quoting (%q)

  const LowerHex: string := "0123456789abcdef"

  /** The ASCII control characters, which %q always escapes. */
  predicate IsControl(c: char) {
    c < ' ' || c == 127 as char
  }

  /** The escape strconv.Quote writes for one ASCII character; other characters are kept. */
  function EscapeChar(c: char): (e: string)
    ensures |e| >= 1
    ensures e[0] == '\\' <==> (c == '"' || c == '\\' || IsControl(c))
  {
    if c == '"' then "\\\""
    else if c == '\\' then "\\\\"
    else if c == 7 as char then "\\a"
    else if c == 8 as char then "\\b"
    else if c == 12 as char then "\\f"
    else if c == '\n' then "\\n"
    else if c == '\r' then "\\r"
    else if c == '\t' then "\\t"
    else if c == 11 as char then "\\v"
    else if IsControl(c) then
      var b := c as int;
      "\\x" + [LowerHex[b / 16], LowerHex[b % 16]]
    else [c]
  }

  function Escape(s: string): string
    decreases |s|
  {
    if s == [] then "" else EscapeChar(s[0]) + Escape(s[1..])
  }

  /** Text without quotes, backslashes or control characters is written as it is. */
  lemma {:induction false} EscapePlain(s: string)
    requires forall i :: 0 <= i < |s| ==> s[i] != '"' && s[i] != '\\' && !IsControl(s[i])
    ensures Escape(s) == s
    decreases |s|
  {
    if s != [] {
      EscapePlain(s[1..]);
      assert s == [s[0]] + s[1..];
    }
  }

  /** strconv.Quote (fmt's %q): the escaped text between double quotes. */
  function Quote(s: string): (q: string)
    ensures |q| >= 2 && q[0] == '"' && q[|q| - 1] == '"'
  {
    "\"" + Escape(s) + "\""
  }

  function HexValue(c: char): nat {
    if '0' <= c <= '9' then (c as int) - ('0' as int)
    else if 'a' <= c <= 'f' then (c as int) - ('a' as int) + 10
    else 0
  }

  /** Reads back the escapes EscapeChar writes (the decoding half of strconv.Unquote). */
  function Unescape(e: string): string
    decreases |e|
  {
    if e == [] then ""
    else if e[0] != '\\' || |e| < 2 then [e[0]] + Unescape(e[1..])
    else if e[1] == 'x' && |e| >= 4 then
      [(16 * HexValue(e[2]) + HexValue(e[3])) as char] + Unescape(e[4..])
    else
      var c := match e[1]
        case 'a' => 7 as char
        case 'b' => 8 as char
        case 'f' => 12 as char
        case 'n' => '\n'
        case 'r' => '\r'
        case 't' => '\t'
        case 'v' => 11 as char
        case other => other;
      [c] + Unescape(e[2..])
  }

  /** One escaped character followed by more escaped text reads back as that character first. */
  lemma UnescapeChar(c: char, rest: string)
    ensures Unescape(EscapeChar(c) + rest) == [c] + Unescape(rest)
  {
    if IsControl(c) && EscapeChar(c)[1] == 'x' {
      UnescapeHex(c, rest);
    } else if IsControl(c) || c == '"' || c == '\\' {
      UnescapeShort(c, rest);
    } else {
      assert (EscapeChar(c) + rest)[1..] == rest;
    }
  }

  /** A control character without a named escape reads back from its two hexadecimal digits. */
  lemma UnescapeHex(c: char, rest: string)
    requires IsControl(c) && EscapeChar(c)[1] == 'x'
    ensures Unescape(EscapeChar(c) + rest) == [c] + Unescape(rest)
  {
    var e := EscapeChar(c) + rest;
    var b := c as int;
    assert EscapeChar(c) == "\\x" + [LowerHex[b / 16], LowerHex[b % 16]];
    assert e[2] == LowerHex[b / 16] && e[3] == LowerHex[b % 16];
    assert HexValue(e[2]) == b / 16 && HexValue(e[3]) == b % 16;
    assert e[4..] == rest;
  }

  /** A quote, a backslash or a control character with a named escape reads back from its two-character escape. */
  lemma UnescapeShort(c: char, rest: string)
    requires IsControl(c) || c == '"' || c == '\\'
    requires !(IsControl(c) && EscapeChar(c)[1] == 'x')
    ensures Unescape(EscapeChar(c) + rest) == [c] + Unescape(rest)
  {
    var e := EscapeChar(c) + rest;
    assert |EscapeChar(c)| == 2;
    assert e[2..] == rest;
  }

  /** Round trip: the quoted text decodes back to the original string. */
  lemma {:induction false} UnescapeEscape(s: string)
    ensures Unescape(Escape(s)) == s
    decreases |s|
  {
    if s != [] {
      UnescapeEscape(s[1..]);
      UnescapeChar(s[0], Escape(s[1..]));
      assert [s[0]] + s[1..] == s;
    }
  }
}
