/**
 * The domain test every codec of the `type_case` package starts with.
 */
module TypeCaseHelper {
  import opened Python

  /** `is_any_instance(value, *types)`: `any` over the listed types. */
  function IsAnyInstance(v: PyValue, types: seq<PyType>): (r: bool)
    ensures r <==> exists i :: 0 <= i < |types| && IsInstance(v, types[i])
  {
    if types == [] then false
    else if IsInstance(v, types[0]) then true
    else
      assert forall i :: 1 <= i < |types| ==> types[i] == types[1..][i - 1];
      IsAnyInstance(v, types[1..])
  }

  /** `any` over no types is false. */
  lemma NoTypesNeverMatch(v: PyValue)
    ensures !IsAnyInstance(v, [])
  {
  }

  /** A string matches as soon as the string type is listed, wherever it is. */
  lemma StrMatchesWhenListed(s: string, types: seq<PyType>)
    requires StrType in types
    ensures IsAnyInstance(PStr(s), types)
  {
  }

  /** A string matches only when the string type is listed. */
  lemma StrRejectedWhenNotListed(s: string, types: seq<PyType>)
    requires StrType !in types
    ensures !IsAnyInstance(PStr(s), types)
  {
  }
}
