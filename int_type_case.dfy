/**
 * The integer codec of the `type_case` package: only integers are written, and
 * every failure to read one back is a `TypeError`.
 */
module IntTypeCase {
  import opened Python
  import opened Wire

  function Encode(v: PyValue): (r: Result<PyValue>)
    ensures r.Ok? <==> v.PInt?
    ensures r.Ok? ==> r.value == v
    ensures r.Err? ==> r.error == TypeError
  {
    if IsInstance(v, IntegralType) then Ok(v) else Err(TypeError)
  }

  /** `int(value)`, then `long(value)`; either failing raises `TypeError`.
      `long()` reads what `int()` reads, and on a string also a trailing `L`. */
  function Decode(v: PyValue): (r: Result<PyValue>)
    ensures v.PNone? ==> r == Ok(PNone)
    ensures r.Ok? && !v.PNone? ==> r.value.PInt?
    ensures v.PStr? ==> (r.Ok? <==> PyLong(v.s).Some?)
    ensures v.PStr? && r.Ok? ==> r.value == PInt(PyLong(v.s).value)
    ensures v.PFloat? ==> (r.Ok? <==> !IsSpecialFloat(Unsigned(v.f)))
    ensures r.Err? ==> r.error == TypeError
  {
    if v.PNone? then Ok(PNone)
    else
      match IntOf(v)
      case Ok(n) => Ok(PInt(n))
      case Err(_) =>
        if v.PStr? && PyLong(v.s).Some? then Ok(PInt(PyLong(v.s).value)) else Err(TypeError)
  }

  /** The `long` literal of any integer, `12L` or `-7L`, reads as that integer. */
  lemma ReadsLongLiterals(n: int)
    ensures Decode(PStr(IntToString(n) + "L")) == Ok(PInt(n))
  {
    var s := IntToString(n) + "L";
    StripUnpadded(s);
    assert ParseDecimal(s).None? by {
      assert !IsDigit(Unsigned(s)[|Unsigned(s)| - 1]);
    }
    assert s[..|s| - 1] == IntToString(n);
    DecimalRoundTrip(n);
  }

  /** `decode(str(encode(n))) == n` for every integer. */
  lemma RoundTrip(n: int)
    ensures Encode(PInt(n)) == Ok(PInt(n))
    ensures Decode(PStr(Str(Encode(PInt(n)).value))) == Ok(PInt(n))
  {
  }
}
