/**
 * The string codec of the `type_case` package: only strings are written, and
 * anything read back goes through `str()`.
 */
module StringTypeCase {
  import opened Python
  import opened Wire

  function Encode(v: PyValue): (r: Result<PyValue>)
    ensures r.Ok? <==> v.PStr?
    ensures r.Ok? ==> r.value == v
    ensures r.Err? ==> r.error == TypeError
  {
    if IsInstance(v, StrType) then Ok(v) else Err(TypeError)
  }

  function Decode(v: PyValue): (r: Result<PyValue>)
    ensures v.PNone? ==> r == Ok(PNone)
    ensures !v.PNone? ==> r.Ok? && r.value.PStr?
    ensures v.PStr? ==> r == Ok(v)
  {
    if v.PNone? then Ok(PNone) else Ok(PStr(Str(v)))
  }

  /** `decode(encode(s)) == s`, also after the trip through the server. */
  lemma RoundTrip(s: string)
    ensures Decode(Encode(PStr(s)).value) == Ok(PStr(s))
    ensures Decode(PStr(Str(Encode(PStr(s)).value))) == Ok(PStr(s))
  {
  }
}
