/**
 * Text forms of numbers: Python's `str()` and `int()` on decimal text, and
 * Redis's stricter reading of a stored string as a 64-bit integer. Everything
 * a key writes reaches the server as the `str()` of the value.
 */
module Wire {
  import opened Python

  function DigitChar(d: nat): (c: char)
    requires d < 10
    ensures IsDigit(c)
  {
    (('0' as int) + d) as char
  }

  function DigitValue(c: char): (d: nat)
    requires IsDigit(c)
    ensures d < 10 && DigitChar(d) == c
  {
    (c as int) - ('0' as int)
  }

  /** Decimal digits of `n`, most significant first, without leading zeros. */
  function NatToString(n: nat): (s: string)
    ensures |s| >= 1 && AllDigits(s)
    ensures s[0] == '0' <==> n == 0
  {
    if n < 10 then [DigitChar(n)] else NatToString(n / 10) + [DigitChar(n % 10)]
  }

  /** The value of a run of decimal digits (the empty run is 0). */
  function ParseNat(s: string): nat
    requires AllDigits(s)
  {
    if s == [] then 0 else ParseNat(s[..|s| - 1]) * 10 + DigitValue(s[|s| - 1])
  }

  lemma {:induction false} ParseNatOfNatToString(n: nat)
    ensures ParseNat(NatToString(n)) == n
  {
    if n >= 10 {
      var s := NatToString(n);
      assert s[..|s| - 1] == NatToString(n / 10);
      ParseNatOfNatToString(n / 10);
    }
  }

  /** Python's `str()` of an integer. */
  function IntToString(n: int): (s: string)
    ensures |s| >= 1 && (IsDigit(s[0]) || s[0] == '-') && IsDigit(s[|s| - 1])
    ensures s[0] == '-' <==> n < 0
  {
    if n < 0 then "-" + NatToString(-n) else NatToString(n)
  }

  /** An optional sign and at least one digit, nothing else. */
  function ParseDecimal(s: string): (r: Option<int>)
    ensures r.Some? <==> Unsigned(s) != [] && AllDigits(Unsigned(s))
  {
    var body := Unsigned(s);
    if body != [] && AllDigits(body) then
      var m: int := ParseNat(body);
      Some(if |s| > 0 && s[0] == '-' then -m else m)
    else None
  }

  predicate IsSpace(c: char) { c == ' ' || c == '\t' || c == '\n' || c == '\r' || c as int == 11 || c as int == 12 }

  function TrimLeft(s: string): (r: string)
    ensures r == [] || !IsSpace(r[0])
    ensures |r| <= |s| && r == s[|s| - |r|..]
  {
    if s != [] && IsSpace(s[0]) then TrimLeft(s[1..]) else s
  }

  function TrimRight(s: string): (r: string)
    ensures r == [] || !IsSpace(r[|r| - 1])
    ensures |r| <= |s| && r == s[..|r|]
  {
    if s != [] && IsSpace(s[|s| - 1]) then TrimRight(s[..|s| - 1]) else s
  }

  /** `s.strip()` for ASCII white space. */
  function Strip(s: string): string { TrimRight(TrimLeft(s)) }

  /** Python's `int(s)` on a string: surrounding white space, a sign and digits. */
  function PyInt(s: string): Option<int> { ParseDecimal(Strip(s)) }

  /** Python 2's `long(s)` on a string: what `int(s)` reads, also with one
      trailing `L` or `l`. */
  function PyLong(s: string): (r: Option<int>)
    ensures PyInt(s).Some? ==> r == PyInt(s)
  {
    var t := Strip(s);
    if |t| >= 2 && (t[|t| - 1] == 'L' || t[|t| - 1] == 'l') && ParseDecimal(t).None? then
      ParseDecimal(t[..|t| - 1])
    else ParseDecimal(t)
  }

  /** Python's `float(s)` on a string that is not an integer literal. */
  function PyFloat(s: string): (r: Option<FloatLiteral>)
    ensures r.Some? ==> r.value == Strip(s)
  {
    var t := Strip(s);
    if IsFloatLiteral(t) then Some(t) else None
  }

  lemma StripUnpadded(s: string)
    requires |s| >= 1 && !IsSpace(s[0]) && !IsSpace(s[|s| - 1])
    ensures Strip(s) == s
  {
  }

  /** The strict decimal reading of `str(n)` is `n`. */
  lemma DecimalRoundTrip(n: int)
    ensures ParseDecimal(IntToString(n)) == Some(n)
  {
    var s := IntToString(n);
    var m: nat := if n < 0 then -n else n;
    assert Unsigned(s) == NatToString(m);
    ParseNatOfNatToString(m);
  }

  /** `int(str(n)) == n`, and the text is already the strict decimal form. */
  lemma IntRoundTrip(n: int)
    ensures ParseDecimal(IntToString(n)) == Some(n)
    ensures PyInt(IntToString(n)) == Some(n)
  {
    DecimalRoundTrip(n);
    StripUnpadded(IntToString(n));
  }

  /** A float literal is never read as an integer, and `float()` reads it
      as itself: it neither starts nor ends with white space. */
  lemma FloatLiteralIsNotInt(f: FloatLiteral)
    ensures PyInt(f) == None
    ensures PyFloat(f) == Some(f)
  {
    var body := Unsigned(f);
    assert body == f[|f| - |body|..];
    FloatBodyUnpadded(body);
    assert !IsSpace(f[0]) && !IsSpace(f[|f| - 1]) by {
      assert f[|f| - 1] == body[|body| - 1];
    }
    StripUnpadded(f);
  }

  /** Float text without its sign starts and ends with a letter, a digit or a
      decimal point. */
  lemma FloatBodyUnpadded(body: string)
    requires IsSpecialFloat(body) ||
      var k := FirstOf(body, 'e', 'E'); IsMantissa(body[..k]) && (k < |body| ==> IsExponent(body[k..]))
    ensures |body| >= 1 && !IsSpace(body[0]) && !IsSpace(body[|body| - 1])
  {
    if IsSpecialFloat(body) {
      SpecialUnpadded(body);
    } else {
      var k := FirstOf(body, 'e', 'E');
      var m := body[..k];
      MantissaUnpadded(m);
      assert body[0] == m[0];
      if k < |body| {
        var e := body[k..];
        ExponentUnpadded(e);
        assert body[|body| - 1] == e[|e| - 1];
      } else {
        assert body == m;
      }
    }
  }

  lemma SpecialUnpadded(s: string)
    requires IsSpecialFloat(s)
    ensures |s| >= 1 && !IsSpace(s[0]) && !IsSpace(s[|s| - 1])
  {
    assert Lower(s[0]) == 'i' || Lower(s[0]) == 'n';
    assert Lower(s[|s| - 1]) == 'f' || Lower(s[|s| - 1]) == 'y' || Lower(s[|s| - 1]) == 'n';
  }

  lemma MantissaUnpadded(m: string)
    requires IsMantissa(m)
    ensures |m| >= 1 && !IsSpace(m[0]) && !IsSpace(m[|m| - 1])
  {
    var d := FirstOf(m, '.', '.');
    assert d == 0 || IsDigit(m[..d][0]);
    if d < |m| {
      if d + 1 < |m| {
        assert m[|m| - 1] == m[d + 1..][|m| - d - 2];
      }
    } else {
      assert m[|m| - 1] == m[..d][|m| - 1];
    }
  }

  lemma ExponentUnpadded(e: string)
    requires IsExponent(e)
    ensures |e| >= 1 && !IsSpace(e[|e| - 1])
  {
    var u := Unsigned(e[1..]);
    assert e[|e| - 1] == u[|u| - 1];
  }

  function Pow10(n: nat): (r: nat)
    ensures r >= 1
  {
    if n == 0 then 1 else 10 * Pow10(n - 1)
  }

  /** The digits of `s`, in order, without anything else. */
  function DigitsOnly(s: string): (r: string)
    ensures AllDigits(r) && |r| <= |s|
  {
    if s == [] then [] else (if IsDigit(s[0]) then [s[0]] else []) + DigitsOnly(s[1..])
  }

  /** `int(f)` of a float: the value of its literal rounded toward zero; the
      infinities raise `OverflowError` and not-a-number `ValueError`. */
  function Truncate(f: FloatLiteral): (r: Result<int>)
    ensures r.Err? <==> IsSpecialFloat(Unsigned(f))
    ensures r.Err? ==> r.error == if SameLetters(Unsigned(f), "nan") then ValueError else OverflowError
  {
    var body := Unsigned(f);
    if IsSpecialFloat(body) then Err(if SameLetters(body, "nan") then ValueError else OverflowError)
    else
      var k := FirstOf(body, 'e', 'E');
      var m := body[..k];
      var d := FirstOf(m, '.', '.');
      var places := if d < |m| then |m| - d - 1 else 0;
      var exponent := if k < |body| then ParseDecimal(body[k + 1..]) else Some(0);
      var shift := (if exponent.Some? then exponent.value else 0) - places;
      var digits := ParseNat(DigitsOnly(m));
      var size := if shift >= 0 then digits * Pow10(shift) else digits / Pow10(-shift);
      Ok(if f[0] == '-' then -size else size)
  }

  /** Python's `int(v)` on any value: integers pass, floats are truncated
      (the infinities and not-a-number raise), strings are parsed
      (`ValueError` when they are not integer literals), and `None` and other
      objects raise `TypeError`. */
  function IntOf(v: PyValue): (r: Result<int>)
    ensures v.PInt? ==> r == Ok(v.i)
    ensures v.PStr? ==> (r.Ok? <==> PyInt(v.s).Some?)
    ensures v.PStr? && r.Ok? ==> PyInt(v.s) == Some(r.value)
    ensures v.PFloat? ==> (r.Err? <==> IsSpecialFloat(Unsigned(v.f)))
    ensures r.Err? && !v.PFloat? ==> r.error == (if v.PStr? then ValueError else TypeError)
  {
    match v
    case PInt(i) => Ok(i)
    case PFloat(f) => Truncate(f)
    case PStr(s) => if PyInt(s).Some? then Ok(PyInt(s).value) else Err(ValueError)
    case PNone => Err(TypeError)
    case POther(_, _) => Err(TypeError)
  }

  /** Python's `str()`: what a value looks like once sent to the server. */
  function Str(v: PyValue): (s: string)
    ensures v.PStr? ==> s == v.s
    ensures v.PInt? ==> PyInt(s) == Some(v.i)
  {
    match v
    case PNone => "None"
    case PInt(i) => IntRoundTrip(i); IntToString(i)
    case PFloat(f) => f
    case PStr(s) => s
    case POther(_, text) => text
  }

  const MinInt64: int := -0x8000_0000_0000_0000
  const MaxInt64: int := 0x7fff_ffff_ffff_ffff

  predicate InInt64(n: int) { MinInt64 <= n <= MaxInt64 }

  /** How the server reads a stored string as an integer for INCRBY, HINCRBY
      and friends: the canonical decimal form of a signed 64-bit value only,
      so no white space, no `+`, no leading zero and no `-0`. */
  function RedisInt(s: string): (r: Option<int>)
    ensures r.Some? ==> IntToString(r.value) == s && InInt64(r.value)
  {
    match ParseDecimal(s)
    case Some(n) => if IntToString(n) == s && InInt64(n) then Some(n) else None
    case None => None
  }

  /** What the server accepts as an integer, Python reads as the same integer. */
  lemma RedisIntIsPyInt(s: string)
    requires RedisInt(s).Some?
    ensures PyInt(s) == RedisInt(s)
  {
    IntRoundTrip(RedisInt(s).value);
  }

  lemma RedisIntRoundTrip(n: int)
    requires InInt64(n)
    ensures RedisInt(IntToString(n)) == Some(n)
  {
    IntRoundTrip(n);
  }
}
