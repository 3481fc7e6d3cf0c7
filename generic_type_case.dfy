/**
 * The generic codec of the `type_case` package: strings, integers and floats
 * are written as they are and read back by the most specific parse that works.
 */
module GenericTypeCase {
  import opened Python
  import opened Wire
  import opened TypeCaseHelper
  import TypeCase

  function Encode(v: PyValue): (r: Result<PyValue>)
    ensures r.Ok? <==> (v.PStr? || v.PInt? || v.PFloat?)
    ensures r.Ok? ==> r.value == v
    ensures r.Err? ==> r.error == TypeError
  {
    var types := [StrType, IntegralType, FloatType];
    assert v.PStr? ==> IsInstance(v, types[0]);
    assert v.PInt? ==> IsInstance(v, types[1]);
    assert v.PFloat? ==> IsInstance(v, types[2]);
    if IsAnyInstance(v, types) then Ok(v) else Err(TypeError)
  }

  /** The server only returns strings, so anything else is a `TypeError`. */
  function Decode(v: PyValue): (r: Result<PyValue>)
    ensures v.PNone? ==> r == Ok(PNone)
    ensures r.Err? <==> !v.PNone? && !v.PStr?
    ensures r.Err? ==> r.error == TypeError
    ensures r.Ok? && v.PStr? ==> r.value.PInt? || r.value.PFloat? || r.value == v
  {
    if v.PNone? then Ok(PNone)
    else if !v.PStr? then Err(TypeError)
    else Ok(TypeCase.Interpret(v.s))
  }

  /** `decode(str(n)) == n` for every integer, however long. */
  lemma DecodesIntegers(n: int)
    ensures Decode(PStr(IntToString(n))) == Ok(PInt(n))
  {
    IntRoundTrip(n);
  }

  /** A string that is neither an integer nor a float literal reads as itself. */
  lemma DecodesOtherText(s: string)
    requires !TypeCase.Numeric(s)
    ensures Decode(PStr(s)) == Ok(PStr(s))
  {
  }

  /** Reading back what was written gives the value, unless it was a string
      that reads as a number. */
  lemma RoundTrip(v: PyValue)
    requires Encode(v).Ok?
    requires v.PStr? ==> !TypeCase.Numeric(v.s)
    ensures Decode(PStr(Str(Encode(v).value))) == Ok(v)
  {
    match v
    case PInt(n) =>
      assert Str(Encode(v).value) == IntToString(n);
      DecodesIntegers(n);
    case PFloat(f) =>
      assert Str(Encode(v).value) == f;
      TypeCase.InterpretsFloat(f);
    case PStr(s) =>
      assert Str(Encode(v).value) == s;
      DecodesOtherText(s);
  }

  /** The one place the generic codec loses information: a string that
      `int()` or `float()` reads comes back as a number, not as the string. */
  lemma NumericTextComesBackAsNumber(s: string)
    requires TypeCase.Numeric(s)
    ensures var r := Decode(PStr(Str(Encode(PStr(s)).value)));
      r.Ok? && (r.value.PInt? || r.value.PFloat?) && r.value != PStr(s)
  {
    assert Encode(PStr(s)) == Ok(PStr(s));
  }
}
