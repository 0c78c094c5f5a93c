/**
 * The JavaScript number operations the listing guide uses, on exact
 * integers: `parseInt` with no radix (section 19.2.5 of ECMA-262),
 * `Math.round` (section 21.3.2.28 of ECMA-262) of a rational number, and the
 * decimal text of an integer. NaN is the absent number.
 */
module Numbers {
  import opened Wrappers
  import opened Text

  /** A number that arises on the listing guide: an integer, or NaN as `None`. */
  type Number = Option<int>

  /** The value of `c` as a digit of radix 36, or 36 when `c` is not a letter or a decimal digit. */
  function DigitValue(c: char): (v: nat)
    ensures v <= 36
    ensures '0' <= c <= '9' ==> v == c as int - '0' as int
    ensures 'a' <= c <= 'z' ==> v == c as int - 'a' as int + 10
    ensures 'A' <= c <= 'Z' ==> v == c as int - 'A' as int + 10
    ensures v < 10 <==> '0' <= c <= '9'
  {
    if '0' <= c <= '9' then c as int - '0' as int
    else if 'a' <= c <= 'z' then c as int - 'a' as int + 10
    else if 'A' <= c <= 'Z' then c as int - 'A' as int + 10
    else 36
  }

  predicate IsDigit(c: char, radix: nat) {
    DigitValue(c) < radix
  }

  /** The length of the longest prefix of `s` made of digits of `radix`. */
  function DigitRun(s: string, radix: nat): (n: nat)
    ensures n <= |s|
    ensures forall i :: 0 <= i < n ==> IsDigit(s[i], radix)
    ensures n < |s| ==> !IsDigit(s[n], radix)
  {
    if s != [] && IsDigit(s[0], radix) then 1 + DigitRun(s[1..], radix) else 0
  }

  /** The value of the digit string `z` in `radix`, most significant digit first. */
  function ValueOf(z: string, radix: nat): nat {
    if z == [] then 0 else ValueOf(z[..|z| - 1], radix) * radix + DigitValue(z[|z| - 1])
  }

  /**
   * `parseInt(s)`: skip leading white space, read an optional sign and then
   * the number; NaN when there is none. A negative zero is the integer 0 here.
   */
  function ParseInt(s: string): Number {
    ParseSigned(TrimStart(s))
  }

  /** An optional "+" or "-", then the magnitude. */
  function ParseSigned(t: string): Number {
    if t != [] && t[0] == '-' then Negated(ParseMagnitude(t[1..]))
    else if t != [] && t[0] == '+' then AsNumber(ParseMagnitude(t[1..]))
    else AsNumber(ParseMagnitude(t))
  }

  /** A magnitude as a number. */
  function AsNumber(m: Option<nat>): Number {
    match m
    case None => None
    case Some(k) => Some(k as int)
  }

  /** A magnitude as a negative number (or zero). */
  function Negated(m: Option<nat>): Number {
    match m
    case None => None
    case Some(k) => Some(-(k as int))
  }

  /** After "0x" or "0X" the longest run of hexadecimal digits, otherwise that of decimal digits. */
  function ParseMagnitude(u: string): Option<nat> {
    if |u| >= 2 && u[0] == '0' && (u[1] == 'x' || u[1] == 'X') then ParseDigits(u[2..], 16)
    else ParseDigits(u, 10)
  }

  /** The value of the longest run of digits at the start of `z`, if that run is not empty. */
  function ParseDigits(z: string, radix: nat): (r: Option<nat>)
    ensures r == None <==> z == [] || !IsDigit(z[0], radix)
  {
    var n := DigitRun(z, radix);
    if n == 0 then None else Some(ValueOf(z[..n], radix))
  }

  /** The decimal digits of `n`, without leading zeros. */
  function ShowNat(n: nat): (s: string)
    ensures |s| >= 1
    ensures forall i :: 0 <= i < |s| ==> '0' <= s[i] <= '9'
    ensures s[0] == '0' ==> n == 0
  {
    if n < 10 then ['0' + n as char] else ShowNat(n / 10) + ['0' + (n % 10) as char]
  }

  /** The text of an integer as JavaScript writes it, with "-" before a negative one. */
  function Show(n: int): (s: string)
    ensures |s| >= 1
    ensures s[0] == '-' <==> n < 0
    ensures forall i :: 0 < i < |s| ==> '0' <= s[i] <= '9'
  {
    if n < 0 then "-" + ShowNat(-n) else ShowNat(n)
  }

  /** The text of a number; NaN is written "NaN", and no integer is. */
  function ShowNumber(x: Number): (s: string)
    ensures s == "NaN" <==> x.None?
  {
    match x
    case None => "NaN"
    case Some(n) => Show(n)
  }

  /**
   * `Math.round` of the rational `num / den`: the integer nearest to it, a
   * value exactly halfway between two integers going to the greater one.
   */
  function MathRound(num: int, den: nat): (r: int)
    requires den > 0
    ensures 2 * den * r - den <= 2 * num < 2 * den * r + den
  {
    (2 * num + den) / (2 * den)
  }

  /** No other integer is within the rounding bounds, so they fix `Math.round` completely. */
  lemma MathRoundUnique(num: int, den: nat, k: int)
    requires den > 0
    requires 2 * den * k - den <= 2 * num < 2 * den * k + den
    ensures k == MathRound(num, den)
  {
    var r := MathRound(num, den);
    var d := 2 * den;
    assert d * (k - r) == d * k - d * r && d * (r - k) == d * r - d * k;
    ScaleBelowOnce(d, k - r);
    ScaleBelowOnce(d, r - k);
  }

  lemma ScaleBelowOnce(d: nat, m: int)
    ensures d * m < d ==> m < 1
  {
    if m >= 1 {
      assert d * m == d * (m - 1) + d;
    }
  }

  /** Halves go toward positive infinity, also below zero: 2.5 rounds to 3 and -2.5 to -2. */
  lemma MathRoundHalves(k: int)
    ensures MathRound(2 * k + 1, 2) == k + 1
  {
  }

  /** The value of the digits of `n` is `n`. */
  lemma {:induction false} ValueOfShowNat(n: nat)
    ensures ValueOf(ShowNat(n), 10) == n
  {
    var s := ShowNat(n);
    if n >= 10 {
      ValueOfShowNat(n / 10);
      assert s[..|s| - 1] == ShowNat(n / 10);
    }
  }

  /** The digit run of a digit string followed by something other than a digit is the whole string. */
  lemma {:induction false} DigitRunOfDigits(z: string, rest: string, radix: nat)
    requires forall i :: 0 <= i < |z| ==> IsDigit(z[i], radix)
    requires rest == [] || !IsDigit(rest[0], radix)
    ensures DigitRun(z + rest, radix) == |z|
  {
    if z != [] {
      assert (z + rest)[1..] == z[1..] + rest;
      DigitRunOfDigits(z[1..], rest, radix);
    } else {
      assert z + rest == rest;
    }
  }

  /** A character that is neither a letter nor a decimal digit. */
  predicate EndsNumber(c: char) {
    DigitValue(c) == 36
  }

  /** `parseInt` reads back the text of an integer, whatever non-alphanumeric text follows it. */
  lemma ParseIntShow(n: int, rest: string)
    requires rest == [] || EndsNumber(rest[0])
    ensures ParseInt(Show(n) + rest) == Some(n)
  {
    var s := Show(n) + rest;
    TrimStartNoSpace(s);
    SignedShow(n, rest);
  }

  lemma SignedShow(n: int, rest: string)
    requires rest == [] || EndsNumber(rest[0])
    ensures ParseSigned(Show(n) + rest) == Some(n)
  {
    if n < 0 {
      NegativeShow(n, rest);
    } else {
      NonNegativeShow(n, rest);
    }
  }

  lemma NegativeShow(n: int, rest: string)
    requires n < 0
    requires rest == [] || EndsNumber(rest[0])
    ensures ParseSigned(Show(n) + rest) == Some(n)
  {
    var z := ShowNat(-n);
    MagnitudeShowNat(-n, rest);
    SignedMinus(z + rest, -n);
    assert Show(n) == ['-'] + z;
    SignBeforeText(z, rest);
  }

  lemma NonNegativeShow(n: nat, rest: string)
    requires rest == [] || EndsNumber(rest[0])
    ensures ParseSigned(Show(n) + rest) == Some(n)
  {
    var t := ShowNat(n) + rest;
    MagnitudeShowNat(n, rest);
    assert t[0] == ShowNat(n)[0];
    SignedDigit(t);
  }

  lemma SignBeforeText(z: string, rest: string)
    ensures (['-'] + z) + rest == ['-'] + (z + rest)
  {
  }

  /** After a minus sign the magnitude is negated. */
  lemma SignedMinus(v: string, m: nat)
    requires ParseMagnitude(v) == Some(m)
    ensures ParseSigned(['-'] + v) == Some(-(m as int))
  {
    assert (['-'] + v)[1..] == v;
  }

  /** Text starting with a digit has no sign. */
  lemma SignedDigit(t: string)
    requires t != [] && '0' <= t[0] <= '9'
    ensures ParseSigned(t) == AsNumber(ParseMagnitude(t))
  {
  }

  /** The magnitude read from the digits of `m` is `m`. */
  lemma MagnitudeShowNat(m: nat, rest: string)
    requires rest == [] || EndsNumber(rest[0])
    ensures ParseMagnitude(ShowNat(m) + rest) == Some(m)
  {
    var z := ShowNat(m);
    var u := z + rest;
    assert |u| >= 2 && u[0] == '0' ==> z == "0" && u[1] == rest[0];
    DigitsOfShowNat(m, rest);
  }

  lemma DigitsOfShowNat(m: nat, rest: string)
    requires rest == [] || EndsNumber(rest[0])
    ensures ParseDigits(ShowNat(m) + rest, 10) == Some(m)
  {
    var z := ShowNat(m);
    DigitRunOfDigits(z, rest, 10);
    assert (z + rest)[..|z|] == z;
    ValueOfShowNat(m);
  }

  /** Leading white space does not change what `parseInt` reads. */
  lemma ParseIntSkipsSpace(space: string, s: string)
    requires forall i :: 0 <= i < |space| ==> IsJsSpace(space[i])
    ensures ParseInt(space + s) == ParseInt(s)
  {
    TrimStartSkips(space, s);
  }

  /** With no digit where the number should start, `parseInt` gives NaN. */
  lemma ParseIntNaN(s: string)
    requires TrimStart(s) == [] || (!IsDigit(TrimStart(s)[0], 10) && TrimStart(s)[0] != '+' && TrimStart(s)[0] != '-')
    ensures ParseInt(s) == None
  {
    var t := TrimStart(s);
    assert t != [] ==> t[0] != '0' && DigitRun(t, 10) == 0;
    assert ParseMagnitude(t) == ParseDigits(t, 10);
  }

  /** Reading stops at the first character that is not a digit: "12abc" gives 12, as "12" does. */
  lemma ParseIntStopsAtNonDigit(z: string, rest: string)
    requires z != [] && z[0] != '0' && forall i :: 0 <= i < |z| ==> '0' <= z[i] <= '9'
    requires rest == [] || !IsDigit(rest[0], 10)
    ensures ParseInt(z + rest) == ParseInt(z) == Some(ValueOf(z, 10))
  {
    assert z + [] == z;
    PlainDecimal(z + rest);
    PlainDecimal(z);
    DigitsThenStop(z, rest, 10);
    DigitsThenStop(z, [], 10);
  }

  /** Text starting with a decimal digit other than 0 is read as a decimal magnitude. */
  lemma PlainDecimal(u: string)
    requires u != [] && '1' <= u[0] <= '9'
    ensures ParseInt(u) == ParseMagnitude(u) == ParseDigits(u, 10)
  {
    TrimStartNoSpace(u);
  }

  /** A run of digits followed by a non-digit is read as its value. */
  lemma DigitsThenStop(z: string, rest: string, radix: nat)
    requires z != [] && forall i :: 0 <= i < |z| ==> IsDigit(z[i], radix)
    requires rest == [] || !IsDigit(rest[0], radix)
    ensures ParseDigits(z + rest, radix) == Some(ValueOf(z, radix))
  {
    DigitRunOfDigits(z, rest, radix);
    assert (z + rest)[..|z|] == z;
  }

  /** After "0x" or "0X" the digits are hexadecimal. */
  lemma ParseIntHex(x: char, z: string, rest: string)
    requires x == 'x' || x == 'X'
    requires z != [] && forall i :: 0 <= i < |z| ==> IsDigit(z[i], 16)
    requires rest == [] || !IsDigit(rest[0], 16)
    ensures ParseInt(['0', x] + z + rest) == Some(ValueOf(z, 16))
  {
    var v := z + rest;
    assert ['0', x] + z + rest == ['0', x] + v;
    DigitsThenStop(z, rest, 16);
    HexText(x, v);
  }

  lemma HexText(x: char, v: string)
    requires x == 'x' || x == 'X'
    ensures ParseInt(['0', x] + v) == AsNumber(ParseDigits(v, 16))
  {
    var u := ['0', x] + v;
    TrimStartNoSpace(u);
    HexMagnitude(x, v);
    SignedDigit(u);
  }

  lemma HexMagnitude(x: char, v: string)
    requires x == 'x' || x == 'X'
    ensures ParseMagnitude(['0', x] + v) == ParseDigits(v, 16)
  {
    assert (['0', x] + v)[2..] == v;
  }

  /** "0x1A" is 26. */
  lemma ParseIntHexExample()
    ensures ParseInt("0x1A") == Some(26)
  {
    ParseIntHex('x', "1A", "");
    assert ['0', 'x'] + "1A" + "" == "0x1A";
    assert ValueOf("1A", 16) == 26 by {
      assert "1A"[..1] == "1";
      assert ""[..0] == "";
    }
  }

  /** "0x" with no hexadecimal digit after it is NaN, although "0" alone is 0. */
  lemma ParseIntBarePrefix()
    ensures ParseInt("0x") == None
    ensures ParseInt("0") == Some(0)
  {
    assert TrimStart("0x") == "0x" by { assert !IsJsSpace("0x"[0]); }
    assert "0x"[2..] == [];
    assert TrimStart("0") == "0" by { assert !IsJsSpace("0"[0]); }
    assert ParseMagnitude("0") == ParseDigits("0", 10);
    assert DigitRun("0", 10) == 1;
    assert "0"[..1] == "0";
    assert ValueOf("0", 10) == 0 by { assert "0"[..0] == ""; }
  }

  lemma ParseIntExample100()
    ensures ParseInt("100") == Some(100)
  {
    assert ShowNat(1) == "1";
    assert ShowNat(10) == ShowNat(1) + "0" == "10";
    assert ShowNat(100) == ShowNat(10) + "0" == "100";
    ParseIntShow(100, "");
    assert Show(100) + "" == "100";
  }

  lemma ParseIntExample99()
    ensures ParseInt("99") == Some(99)
  {
    assert ShowNat(9) == "9";
    assert ShowNat(99) == ShowNat(9) + "9" == "99";
    ParseIntShow(99, "");
    assert Show(99) + "" == "99";
  }
}
