/**
 * The first codec generation (`to_redis` / `to_python`), used by the keys of
 * the `mix` package. A value outside a codec's domain raises `ValueError`.
 */
module TypeCase {
  import opened Python
  import opened Wire
  import TypeCaseHelper

  /** `accept_type(*types)`: a test that `value` is an instance of a listed type. */
  function AcceptType(types: seq<PyType>): (accepts: PyValue -> bool)
    ensures forall v :: accepts(v) <==> exists i :: 0 <= i < |types| && IsInstance(v, types[i])
  {
    v => TypeCaseHelper.IsAnyInstance(v, types)
  }

  /** A stored string that `int()` or `float()` would read as a number. */
  predicate Numeric(s: string) { PyInt(s).Some? || PyFloat(s).Some? }

  /** The fallback chain of the generic codecs on a string: `int(s)`, else
      `float(s)`, else `str(s)`, the first that does not raise. */
  function Interpret(s: string): (r: PyValue)
    ensures r.PInt? || r.PFloat? || r == PStr(s)
    ensures r == PStr(s) <==> !Numeric(s)
    ensures r.PInt? ==> PyInt(s) == Some(r.i)
    ensures r.PFloat? ==> PyInt(s).None? && PyFloat(s) == Some(r.f)
  {
    match PyInt(s)
    case Some(n) => PInt(n)
    case None =>
      match PyFloat(s)
      case Some(f) => PFloat(f)
      case None => PStr(s)
  }

  /** The value the server hands back for a stored text, or `None`. */
  function FromWire(w: Option<string>): (v: PyValue)
    ensures v.PNone? <==> w.None?
  {
    match w
    case None => PNone
    case Some(s) => PStr(s)
  }

  function GenericToRedis(v: PyValue): (r: Result<PyValue>)
    ensures r.Ok? <==> (v.PStr? || v.PInt? || v.PFloat?)
    ensures r.Ok? ==> r.value == v
    ensures r.Err? ==> r.error == ValueError
  {
    var types := [StrType, IntegralType, FloatType];
    assert v.PStr? ==> IsInstance(v, types[0]);
    assert v.PInt? ==> IsInstance(v, types[1]);
    assert v.PFloat? ==> IsInstance(v, types[2]);
    if AcceptType(types)(v) then Ok(v) else Err(ValueError)
  }

  /** Anything but a string or `None` fails the assertion. */
  function GenericToPython(v: PyValue): (r: Result<PyValue>)
    ensures v.PNone? ==> r == Ok(PNone)
    ensures r.Err? <==> !v.PNone? && !v.PStr?
    ensures r.Err? ==> r.error == AssertionError
    ensures r.Ok? && v.PStr? ==> r.value.PInt? || r.value.PFloat? || r.value == v
  {
    if v.PNone? then Ok(PNone)
    else if !v.PStr? then Err(AssertionError)
    else Ok(Interpret(v.s))
  }

  function IntToRedis(v: PyValue): (r: Result<PyValue>)
    ensures r.Ok? <==> v.PInt?
    ensures r.Ok? ==> r.value == v
    ensures r.Err? ==> r.error == ValueError
  {
    if AcceptType([IntegralType])(v) then Ok(v) else Err(ValueError)
  }

  /** `int(value)`: a bad string raises `ValueError`, a float is truncated. */
  function IntToPython(v: PyValue): (r: Result<PyValue>)
    ensures v.PNone? ==> r == Ok(PNone)
    ensures r.Ok? && !v.PNone? ==> r.value.PInt?
    ensures v.PStr? ==> (r.Ok? <==> PyInt(v.s).Some?)
    ensures v.PStr? && r.Ok? ==> r.value == PInt(PyInt(v.s).value)
    ensures v.PStr? && r.Err? ==> r.error == ValueError
  {
    if v.PNone? then Ok(PNone)
    else
      var n :- IntOf(v);
      Ok(PInt(n))
  }

  function StringToRedis(v: PyValue): (r: Result<PyValue>)
    ensures r.Ok? <==> v.PStr?
    ensures r.Ok? ==> r.value == v
    ensures r.Err? ==> r.error == ValueError
  {
    if AcceptType([StrType])(v) then Ok(v) else Err(ValueError)
  }

  /** `str(value)`, which never fails. */
  function StringToPython(v: PyValue): (r: Result<PyValue>)
    ensures v.PNone? ==> r == Ok(PNone)
    ensures !v.PNone? ==> r.Ok? && r.value.PStr?
    ensures v.PStr? ==> r == Ok(v)
  {
    if v.PNone? then Ok(PNone) else Ok(PStr(Str(v)))
  }

  /** What the generic codec reads back is what was written, unless it was
      a string that reads as a number. */
  lemma GenericRoundTrip(v: PyValue)
    requires GenericToRedis(v).Ok?
    requires v.PStr? ==> !Numeric(v.s)
    ensures GenericToPython(PStr(Str(GenericToRedis(v).value))) == Ok(v)
  {
    match v
    case PInt(n) =>
      assert Str(GenericToRedis(v).value) == IntToString(n);
      GenericReadsIntegers(n);
    case PFloat(f) =>
      assert Str(GenericToRedis(v).value) == f;
      InterpretsFloat(f);
    case PStr(s) =>
      KeepsText(s);
  }

  /** A string that neither `int()` nor `float()` reads comes back as itself. */
  lemma KeepsText(s: string)
    requires !Numeric(s)
    ensures GenericToPython(PStr(s)) == Ok(PStr(s))
  {
  }

  /** A float's literal reads back as that float. */
  lemma InterpretsFloat(f: FloatLiteral)
    ensures Interpret(f) == PFloat(f)
  {
    FloatLiteralIsNotInt(f);
  }

  /** The decimal rendering of an integer comes back as that integer. */
  lemma GenericReadsIntegers(n: int)
    ensures GenericToPython(PStr(IntToString(n))) == Ok(PInt(n))
  {
    IntRoundTrip(n);
  }

  lemma IntRoundTripOld(n: int)
    ensures IntToPython(PStr(Str(PInt(n)))) == Ok(PInt(n))
  {
  }

  lemma StringRoundTripOld(s: string)
    ensures StringToPython(StringToRedis(PStr(s)).value) == Ok(PStr(s))
  {
  }
}
