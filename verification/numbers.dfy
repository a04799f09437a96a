/**
 * JavaScript's `parseInt` without a radix, and the integer part of `parseFloat`, on
 * strings: leading white space, an optional sign, then as many digits as follow. For
 * `parseInt` a "0x" or "0X" after the sign switches to hexadecimal. Both give NaN (here
 * `None`) when no digit is found.
 */
module Numbers {

  import opened Wrappers
  import opened Text

  predicate IsDigit(c: char) {
    '0' <= c <= '9'
  }

  /** The value of `c` as a digit: letters of either case count from 10; 36 for anything else. */
  function DigitOf(c: char): (d: nat)
    ensures d <= 36
    ensures d < 10 <==> IsDigit(c)
  {
    if '0' <= c <= '9' then c as int - '0' as int
    else if 'a' <= c <= 'z' then c as int - 'a' as int + 10
    else if 'A' <= c <= 'Z' then c as int - 'A' as int + 10
    else 36
  }

  /** The number of digits of base `radix` at the start of `s`. */
  function Run(s: string, radix: nat): (n: nat)
    ensures n <= |s|
  {
    if s != [] && DigitOf(s[0]) < radix then 1 + Run(s[1..], radix) else 0
  }

  /** The run is the longest prefix of digits of base `radix`. */
  lemma {:induction false} RunIsLongest(s: string, radix: nat)
    ensures forall i | 0 <= i < Run(s, radix) :: DigitOf(s[i]) < radix
    ensures Run(s, radix) < |s| ==> DigitOf(s[Run(s, radix)]) >= radix
    decreases |s|
  {
    if s != [] && DigitOf(s[0]) < radix {
      RunIsLongest(s[1..], radix);
      forall i | 0 <= i < Run(s, radix)
        ensures DigitOf(s[i]) < radix
      {
        if i > 0 {
          assert s[i] == s[1..][i - 1];
        }
      }
    }
  }

  /** The number of decimal digits at the start of `s`. */
  function DigitRun(s: string): nat {
    Run(s, 10)
  }

  /** The value of a string of digits of base `radix`, most significant first. */
  function Value(ds: string, radix: nat): nat
    decreases |ds|
  {
    if ds == [] then 0
    else Value(ds[..|ds| - 1], radix) * radix + DigitOf(ds[|ds| - 1])
  }

  /** The decimal digits of `n`, without leading zeros. */
  function ShowNat(n: nat): (r: string)
    ensures r != [] && forall i | 0 <= i < |r| :: IsDigit(r[i])
    decreases n
  {
    if n < 10 then [('0' as int + n) as char] else ShowNat(n / 10) + [('0' as int + n % 10) as char]
  }

  /** `String(n)` for an integer. */
  function ShowInt(n: int): string {
    if n < 0 then "-" + ShowNat(-n) else ShowNat(n)
  }

  /** Optional sign: the sign and what follows it. */
  function Sign(s: string): (r: (int, string))
    ensures r.0 == 1 || r.0 == -1
    ensures |r.1| <= |s|
  {
    if s != [] && s[0] == '-' then (-1, s[1..])
    else if s != [] && s[0] == '+' then (1, s[1..])
    else (1, s)
  }

  /** The "0x" or "0X" that makes `parseInt` without a radix read hexadecimal. */
  predicate HexPrefixed(s: string) {
    |s| >= 2 && s[0] == '0' && (s[1] == 'x' || s[1] == 'X')
  }

  /** The base `parseInt` reads the text after the sign in. */
  function Radix(rest: string): nat {
    if HexPrefixed(rest) then 16 else 10
  }

  /** The text after the sign with the "0x" or "0X", if any, removed. */
  function Body(rest: string): string {
    if HexPrefixed(rest) then rest[2..] else rest
  }

  /** The value of the leading digits of `ds` in base `radix`, with `sign`; `None` when there are none. */
  function ReadDigits(sign: int, ds: string, radix: nat): (r: Option<int>)
    ensures r.Some? <==> Run(ds, radix) > 0
  {
    var n := Run(ds, radix);
    if n == 0 then None else Some(sign * Value(ds[..n], radix))
  }

  /**
   * `parseInt(s)`: the leading integer, or `None` for NaN. After the sign, "0x" or "0X"
   * selects base 16 and must be followed by a hexadecimal digit; otherwise base 10.
   */
  function ParseInt(s: string): Option<int> {
    var sr := Sign(TrimStart(s));
    ReadDigits(sr.0, Body(sr.1), Radix(sr.1))
  }

  /**
   * When `parseInt` finds a number: after "0x" or "0X" exactly when a hexadecimal digit
   * follows it, otherwise exactly when a decimal digit follows the sign.
   */
  lemma ParseIntDefined(s: string)
    ensures var rest := Sign(TrimStart(s)).1;
            && (HexPrefixed(rest) ==> (ParseInt(s).Some? <==> Run(rest[2..], 16) > 0))
            && (!HexPrefixed(rest) ==> (ParseInt(s).Some? <==> Run(rest, 10) > 0))
  {
  }

  /**
   * `parseFloat(s)` cut to its integer part: decimal only (a "0x" reads as 0), and a
   * fraction alone (".5") is a number too.
   */
  function ParseDecimal(s: string): (r: Option<int>)
    ensures !HexPrefixed(Sign(TrimStart(s)).1) && Run(Sign(TrimStart(s)).1, 10) > 0 ==> r == ParseInt(s)
    ensures r.Some? <==> DigitRun(Sign(TrimStart(s)).1) > 0 || HasFraction(Sign(TrimStart(s)).1)
  {
    var sr := Sign(TrimStart(s));
    if DigitRun(sr.1) > 0 then ReadDigits(sr.0, sr.1, 10)
    else if HasFraction(sr.1) then Some(0)
    else None
  }

  /** A decimal point followed by a digit. */
  predicate HasFraction(s: string) {
    1 < |s| && s[0] == '.' && IsDigit(s[1])
  }

  lemma {:induction false} ValueOfShow(n: nat)
    ensures Value(ShowNat(n), 10) == n
    decreases n
  {
    if n >= 10 {
      var d := ShowNat(n / 10);
      var r := d + [('0' as int + n % 10) as char];
      assert r[..|r| - 1] == d;
      ValueOfShow(n / 10);
    }
  }

  lemma {:induction false} RunOfDigits(s: string, radix: nat)
    requires forall i | 0 <= i < |s| :: DigitOf(s[i]) < radix
    ensures Run(s, radix) == |s|
    decreases |s|
  {
    if s != [] {
      RunOfDigits(s[1..], radix);
    }
  }

  /** The decimal digits of `m` are read back as `m`, with either sign. */
  lemma ReadShown(m: nat)
    ensures var d := ShowNat(m);
            && !HexPrefixed(d) && Body(d) == d && Radix(d) == 10 && Run(d, 10) > 0
            && ReadDigits(1, d, 10) == Some(m) && ReadDigits(-1, d, 10) == Some(-(m as int))
  {
    var d := ShowNat(m);
    if |d| >= 2 {
      assert IsDigit(d[1]);
    }
    RunOfDigits(d, 10);
    assert d[..|d|] == d;
    ValueOfShow(m);
  }

  lemma TrimStartBare(s: string)
    requires s != [] && !IsSpace(s[0])
    ensures TrimStart(s) == s
  {
  }

  /** Reading back a written integer gives the integer. */
  lemma ParseShowInt(n: int)
    ensures ParseInt(ShowInt(n)) == Some(n)
    ensures ParseDecimal(ShowInt(n)) == Some(n)
  {
    var s := ShowInt(n);
    var m: nat := if n < 0 then -n else n;
    var digits := ShowNat(m);
    ReadShown(m);
    TrimStartBare(s);
    if n < 0 {
      assert s[1..] == digits;
      assert Sign(s) == (-1, digits);
    } else {
      assert Sign(s) == (1, digits);
    }
  }

  /** On text with no leading white space or sign, `parseInt` reads the digits after any "0x". */
  lemma ParseIntOfBare(s: string)
    requires s != [] && !IsSpace(s[0]) && s[0] != '-' && s[0] != '+'
    ensures ParseInt(s) == ReadDigits(1, Body(s), Radix(s))
  {
    assert TrimStart(s) == s;
    assert Sign(s) == (1, s);
  }

  /** "0x" followed by hexadecimal digits is their base-16 value to `parseInt`. */
  lemma HexRead(s: string)
    requires HexPrefixed(s) && |s| > 2
    requires forall i | 2 <= i < |s| :: DigitOf(s[i]) < 16
    ensures ParseInt(s) == Some(Value(s[2..], 16))
  {
    ParseIntOfBare(s);
    var ds := s[2..];
    assert forall i | 0 <= i < |ds| :: ds[i] == s[i + 2];
    RunOfDigits(ds, 16);
    assert ds[..|ds|] == ds;
  }

  /** "0x" with no hexadecimal digit after it is NaN to `parseInt`. */
  lemma HexWithoutDigits(s: string)
    requires HexPrefixed(s) && (|s| == 2 || DigitOf(s[2]) >= 16)
    ensures ParseInt(s) == None
  {
    ParseIntOfBare(s);
  }

  /** To `parseFloat` any text starting with "0x" is 0: it stops at the "x". */
  lemma HexAsDecimal(s: string)
    requires HexPrefixed(s)
    ensures ParseDecimal(s) == Some(0)
  {
    assert TrimStart(s) == s;
    assert Sign(s) == (1, s);
    assert DigitOf(s[1]) == 33;
    assert Run(s, 10) == 1;
    assert s[..1] == "0";
    assert Value(s[..1], 10) == 0;
  }

  /** The score "0x1F" is 31 to `parseInt`. */
  lemma HexExample(s: string)
    requires s == "0x1F"
    ensures ParseInt(s) == Some(31)
  {
    assert DigitOf(s[2]) == 1 && DigitOf(s[3]) == 15;
    HexRead(s);
    var ds := s[2..];
    assert ds[..|ds| - 1] == [s[2]] && ds[|ds| - 1] == s[3];
    assert [s[2]][..0] == [];
    assert Value([s[2]], 16) == 1;
    assert Value(ds, 16) == Value([s[2]], 16) * 16 + 15;
  }
}
