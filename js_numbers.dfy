/** The JavaScript number parsers the list endpoints apply to query-string values:
    `parseInt(s)` (no radix argument) and `parseFloat(s)`. A result that is not a
    number (NaN) is `None`; the model does not say what a NaN compares equal to. */
module JsNumbers {
  import opened Wrappers
  import opened JsStrings

  /** The value of a hexadecimal digit character; 16 for any other character,
      so `DigitValue(c) < radix` says that `c` is a digit in base 10 or base 16. */
  function DigitValue(c: char): (v: nat)
    ensures v <= 16
    ensures v < 10 <==> '0' <= c <= '9'
  {
    if '0' <= c <= '9' then c as int - '0' as int
    else if 'a' <= c <= 'f' then c as int - 'a' as int + 10
    else if 'A' <= c <= 'F' then c as int - 'A' as int + 10
    else 16
  }

  /** Length of the longest prefix of `s` made of digits in base `radix`. */
  function DigitRun(s: string, radix: nat): (n: nat)
    ensures n <= |s|
    ensures forall i :: 0 <= i < n ==> DigitValue(s[i]) < radix
    ensures n == |s| || DigitValue(s[n]) >= radix
  {
    if s != [] && DigitValue(s[0]) < radix then 1 + DigitRun(s[1..], radix) else 0
  }

  /** The number a string of digits denotes in base `radix`, most significant digit first. */
  function DigitsValue(s: string, radix: nat): nat
  {
    if s == [] then 0 else DigitsValue(s[..|s| - 1], radix) * radix + DigitValue(s[|s| - 1])
  }

  function Pow10(n: nat): (p: nat)
    ensures p >= 1
  {
    if n == 0 then 1 else 10 * Pow10(n - 1)
  }

  /** A leading '-' on text that white-space trimming has already reached. */
  predicate IsNegative(t: string) {
    t != [] && t[0] == '-'
  }

  /** `t` with one leading '+' or '-' removed. */
  function StripSign(t: string): string {
    if t != [] && (t[0] == '-' || t[0] == '+') then t[1..] else t
  }

  /** The magnitude `parseInt` reads after the sign: a "0x"/"0X" prefix selects base 16,
      then the longest run of digits is the value; no digit at all is NaN. */
  function ParseUnsignedInt(u: string): Option<nat>
  {
    var hex := |u| >= 2 && u[0] == '0' && (u[1] == 'x' || u[1] == 'X');
    var radix := if hex then 16 else 10;
    var digits := if hex then u[2..] else u;
    var n := DigitRun(digits, radix);
    if n == 0 then None else Some(DigitsValue(digits[..n], radix))
  }

  /** `parseInt(s)`: skip leading white space, read an optional sign, then the magnitude.
      Anything after the digits is ignored. */
  function ParseInt(s: string): (r: Option<int>)
    ensures var u := StripSign(TrimStart(s));
            r.Some? <==> if |u| >= 2 && u[0] == '0' && (u[1] == 'x' || u[1] == 'X')
                         then |u| > 2 && DigitValue(u[2]) < 16
                         else u != [] && DigitValue(u[0]) < 10
    ensures r.Some? && r.value < 0 ==> IsNegative(TrimStart(s))
  {
    var t := TrimStart(s);
    match ParseUnsignedInt(StripSign(t))
    case None => None
    case Some(m) => Some(if IsNegative(t) then -(m as int) else m as int)
  }

  /** The signed decimal exponent an "e"/"E" part at the start of `s` denotes, 0 when there is none. */
  function Exponent(s: string): int
  {
    if s != [] && (s[0] == 'e' || s[0] == 'E') then
      var t := s[1..];
      var u := StripSign(t);
      var m: int := DigitsValue(u[..DigitRun(u, 10)], 10);
      if IsNegative(t) then -m else m
    else 0
  }

  /** The value of whole digits, a point and fraction digits: the fraction counts in
      units of ten to the minus its length. */
  function Mantissa(whole: string, fraction: string): (m: real)
    ensures m >= 0.0
  {
    DigitsValue(whole, 10) as real + DigitsValue(fraction, 10) as real / Pow10(|fraction|) as real
  }

  /** `m` times ten to the power `e`; a non-negative value stays non-negative. */
  function Scaled(m: real, e: int): (v: real)
    ensures m >= 0.0 ==> v >= 0.0
  {
    if e >= 0 then m * Pow10(e) as real else m / Pow10(-e) as real
  }

  /** The magnitude `parseFloat` reads after the sign: the longest prefix of the form
      digits, optional point and digits, optional exponent, with at least one digit before
      or after the point; otherwise NaN. The value is the exact rational the text denotes. */
  function ParseUnsignedFloat(u: string): (r: Option<real>)
    ensures r.Some? <==> (u != [] && DigitValue(u[0]) < 10) || (|u| >= 2 && u[0] == '.' && DigitValue(u[1]) < 10)
    ensures r.Some? ==> r.value >= 0.0
  {
    var whole := DigitRun(u, 10);
    var afterWhole := u[whole..];
    var dot := afterWhole != [] && afterWhole[0] == '.';
    var frac := if dot then DigitRun(afterWhole[1..], 10) else 0;
    assert whole > 0 <==> u != [] && DigitValue(u[0]) < 10;
    assert whole == 0 ==> afterWhole == u;
    if whole == 0 && frac == 0 then None
    else
      var fraction := if dot then afterWhole[1..1 + frac] else "";
      var rest := if dot then afterWhole[1 + frac..] else afterWhole;
      var mantissa := Mantissa(u[..whole], fraction);
      var e := Exponent(rest);
      Some(Scaled(mantissa, e))
  }

  /** `parseFloat(s)`: skip leading white space, read an optional sign, then the magnitude. */
  function ParseFloat(s: string): (r: Option<real>)
    ensures var u := StripSign(TrimStart(s));
            r.Some? <==> (u != [] && DigitValue(u[0]) < 10) || (|u| >= 2 && u[0] == '.' && DigitValue(u[1]) < 10)
    ensures r.Some? && r.value < 0.0 ==> IsNegative(TrimStart(s))
  {
    var t := TrimStart(s);
    match ParseUnsignedFloat(StripSign(t))
    case None => None
    case Some(m) => Some(if IsNegative(t) then -m else m)
  }

  /** Decimal digits of a natural number, without leading zeros. */
  function NatToString(n: nat): (s: string)
    ensures s != []
    ensures forall i :: 0 <= i < |s| ==> DigitValue(s[i]) < 10
  {
    var d := [('0' as int + n % 10) as char];
    assert DigitValue(d[0]) < 10;
    if n < 10 then d else NatToString(n / 10) + d
  }

  /** The way JavaScript prints an integer: a minus sign, then decimal digits. */
  function IntToString(i: int): string
  {
    if i < 0 then "-" + NatToString(-i) else NatToString(i)
  }

  lemma {:induction false} NatToStringValue(n: nat)
    ensures DigitsValue(NatToString(n), 10) == n
  {
    var s := NatToString(n);
    assert DigitValue(s[|s| - 1]) == n % 10;
    if n >= 10 {
      NatToStringValue(n / 10);
      assert s[..|s| - 1] == NatToString(n / 10);
    }
  }

  /** A digit run followed by a non-digit is read exactly to its end. */
  lemma {:induction false} DigitRunOfDigits(s: string, t: string, radix: nat)
    requires forall i :: 0 <= i < |s| ==> DigitValue(s[i]) < radix
    requires t == [] || DigitValue(t[0]) >= radix
    ensures DigitRun(s + t, radix) == |s|
  {
    if s != [] {
      assert (s + t)[1..] == s[1..] + t;
      DigitRunOfDigits(s[1..], t, radix);
    } else {
      assert s + t == t;
    }
  }

  /** A sign or a digit is not white space, so trimming stops in front of it. */
  lemma TrimStartAtSignOrDigit(s: string)
    requires s != [] && (s[0] == '-' || '0' <= s[0] <= '9')
    ensures TrimStart(s) == s
  {
    assert !IsWhitespace(s[0]);
  }

  /** A minus sign in front of digits is read as a sign. */
  lemma SignBeforeDigits(digits: string, t: string)
    requires digits != [] && DigitValue(digits[0]) < 10
    ensures TrimStart("-" + digits + t) == "-" + digits + t
    ensures IsNegative("-" + digits + t)
    ensures StripSign("-" + digits + t) == digits + t
  {
    var s := "-" + digits + t;
    assert s[0] == '-';
    TrimStartAtSignOrDigit(s);
    assert s[1..] == digits + t;
  }

  /** Digits with no sign in front are read as they stand. */
  lemma NoSignBeforeDigits(digits: string, t: string)
    requires digits != [] && DigitValue(digits[0]) < 10
    ensures TrimStart(digits + t) == digits + t
    ensures !IsNegative(digits + t)
    ensures StripSign(digits + t) == digits + t
  {
    var s := digits + t;
    assert s[0] == digits[0];
    assert '0' <= s[0] <= '9';
    TrimStartAtSignOrDigit(s);
  }

  /** The printed form of an integer starts with its sign or a digit, never with white space. */
  lemma SignOfIntToString(i: int, t: string)
    ensures TrimStart(IntToString(i) + t) == IntToString(i) + t
    ensures IsNegative(IntToString(i) + t) <==> i < 0
    ensures StripSign(IntToString(i) + t) == NatToString(if i < 0 then -i else i) + t
  {
    if i < 0 {
      SignBeforeDigits(NatToString(-i), t);
    } else {
      NoSignBeforeDigits(NatToString(i), t);
    }
  }

  /** `parseInt` reads back the decimal form of every integer, whatever non-digit text follows
      (text that would turn a lone "0" into a "0x" prefix excepted). */
  lemma ParseIntRoundTrip(i: int, t: string)
    requires t == [] || (DigitValue(t[0]) >= 10 && (i != 0 || (t[0] != 'x' && t[0] != 'X')))
    ensures ParseInt(IntToString(i) + t) == Some(i)
  {
    SignOfIntToString(i, t);
    ParseUnsignedIntOfDigits(if i < 0 then -i else i, t);
  }

  /** Only zero is printed with a leading '0'. */
  lemma {:induction false} NatToStringLeadingDigit(m: nat)
    ensures NatToString(m)[0] == '0' <==> m == 0
  {
    if m >= 10 {
      NatToStringLeadingDigit(m / 10);
      assert NatToString(m)[0] == NatToString(m / 10)[0];
    }
  }

  lemma ParseUnsignedIntOfDigits(m: nat, t: string)
    requires t == [] || (DigitValue(t[0]) >= 10 && (m != 0 || (t[0] != 'x' && t[0] != 'X')))
    ensures ParseUnsignedInt(NatToString(m) + t) == Some(m)
  {
    var digits := NatToString(m);
    var u := digits + t;
    assert !(|u| >= 2 && u[0] == '0' && (u[1] == 'x' || u[1] == 'X')) by {
      NatToStringLeadingDigit(m);
      if |u| >= 2 && u[0] == '0' {
        assert m == 0 && digits == "0";
        assert u[1] == t[0];
      }
    }
    DigitRunOfDigits(digits, t, 10);
    assert u[..|digits|] == digits;
    NatToStringValue(m);
  }

  /** `parseFloat` reads back the decimal form of every integer, whatever text follows that
      cannot continue a number. */
  lemma ParseFloatRoundTrip(i: int, t: string)
    requires t == [] || (DigitValue(t[0]) >= 10 && t[0] != '.' && t[0] != 'e' && t[0] != 'E')
    ensures ParseFloat(IntToString(i) + t) == Some(i as real)
  {
    SignOfIntToString(i, t);
    ParseUnsignedFloatOfDigits(if i < 0 then -i else i, t);
  }

  lemma ParseUnsignedFloatOfDigits(m: nat, t: string)
    requires t == [] || (DigitValue(t[0]) >= 10 && t[0] != '.' && t[0] != 'e' && t[0] != 'E')
    ensures ParseUnsignedFloat(NatToString(m) + t) == Some(m as real)
  {
    var digits := NatToString(m);
    var u := digits + t;
    DigitRunOfDigits(digits, t, 10);
    assert u[..|digits|] == digits;
    assert u[|digits|..] == t;
    NatToStringValue(m);
    assert Exponent(t) == 0;
    ParseUnsignedFloatWhole(u, |digits|);
  }

  /** A digit run not followed by a point or an exponent reads as its integer value. */
  lemma ParseUnsignedFloatWhole(u: string, whole: nat)
    requires whole == DigitRun(u, 10) && whole > 0
    requires u[whole..] == [] || u[whole] != '.'
    requires Exponent(u[whole..]) == 0
    ensures ParseUnsignedFloat(u) == Some(DigitsValue(u[..whole], 10) as real)
  {
    var mantissa := Mantissa(u[..whole], "");
    assert mantissa == DigitsValue(u[..whole], 10) as real;
    assert Scaled(mantissa, 0) == mantissa;
  }

  /** `parseFloat` reads a decimal with a fractional part, such as "10.5": the whole digits,
      then the fraction digits over the matching power of ten, whatever text follows that
      cannot continue the number. */
  lemma ParseFloatDecimal(w: string, f: string, t: string)
    requires w != [] && forall i :: 0 <= i < |w| ==> DigitValue(w[i]) < 10
    requires forall i :: 0 <= i < |f| ==> DigitValue(f[i]) < 10
    requires t == [] || (DigitValue(t[0]) >= 10 && t[0] != 'e' && t[0] != 'E')
    ensures ParseFloat(w + "." + f + t) == Some(Mantissa(w, f))
  {
    var u := w + ("." + (f + t));
    assert w + "." + f + t == u;
    NoSignBeforeDigits(w, "." + (f + t));
    ParseUnsignedFloatOfDecimal(w, f, t);
    assert ParseFloat(u) == Some(Mantissa(w, f));
  }

  lemma ParseUnsignedFloatOfDecimal(w: string, f: string, t: string)
    requires w != [] && forall i :: 0 <= i < |w| ==> DigitValue(w[i]) < 10
    requires forall i :: 0 <= i < |f| ==> DigitValue(f[i]) < 10
    requires t == [] || (DigitValue(t[0]) >= 10 && t[0] != 'e' && t[0] != 'E')
    ensures ParseUnsignedFloat(w + ("." + (f + t))) == Some(Mantissa(w, f))
  {
    var u := w + ("." + (f + t));
    PointAfterDigits(w, f + t);
    DigitRunOfDigits(f, t, 10);
    assert (f + t)[..|f|] == f && (f + t)[|f|..] == t;
    assert Exponent(t) == 0;
    assert u[..|w|] == w && u[|w| + 1..] == f + t;
    ParseUnsignedFloatPoint(u, |w|, |f|);
  }

  /** Where the point stands in digits, a point and the rest. */
  lemma PointAfterDigits(digits: string, v: string)
    requires digits != [] && forall i :: 0 <= i < |digits| ==> DigitValue(digits[i]) < 10
    ensures var u := digits + ("." + v);
            && DigitRun(u, 10) == |digits|
            && u[..|digits|] == digits
            && u[|digits|] == '.'
            && u[|digits| + 1..] == v
  {
    var u := digits + ("." + v);
    DigitRunOfDigits(digits, "." + v, 10);
    assert u[..|digits|] == digits;
    assert u[|digits|..] == "." + v;
  }

  /** A digit run, a point and a second digit run, with no exponent after them, read as
      the whole part plus the fraction. */
  lemma ParseUnsignedFloatPoint(u: string, whole: nat, frac: nat)
    requires whole == DigitRun(u, 10) && whole > 0
    requires whole < |u| && u[whole] == '.'
    requires frac == DigitRun(u[whole + 1..], 10)
    requires Exponent(u[whole + 1..][frac..]) == 0
    ensures ParseUnsignedFloat(u) == Some(Mantissa(u[..whole], u[whole + 1..][..frac]))
  {
    var afterWhole := u[whole..];
    assert afterWhole != [] && afterWhole[0] == '.';
    assert afterWhole[1..] == u[whole + 1..];
    var fraction := afterWhole[1..1 + frac];
    assert fraction == u[whole + 1..][..frac];
    assert afterWhole[1 + frac..] == u[whole + 1..][frac..];
    var mantissa := Mantissa(u[..whole], fraction);
    assert Pow10(0) == 1;
    assert Scaled(mantissa, 0) == mantissa;
  }
}
