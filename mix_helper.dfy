/**
 * The helpers of the first generation: where a key or a plain name is
 * accepted, the name it stands for; and the text of a key's repr.
 */
module MixHelper {
  import opened Python
  import opened Wire
  import opened KeyHelper
  import MixKey

  /** An argument that is either a key object or a key name. */
  datatype KeyOrName = AKey(key: MixKey.Key) | AName(name: string)

  /** `get_key_name_from_single_value`: the key's name, or the name itself. */
  function NameOf(x: KeyOrName): (n: string)
    ensures x.AKey? ==> n == x.key.name
    ensures x.AName? ==> n == x.name
  {
    match x
    case AKey(k) => k.name
    case AName(s) => s
  }

  /** `get_key_name_from_list`: the name of each argument, in order. */
  function NamesOf(xs: seq<KeyOrName>): (ns: seq<string>)
    ensures |ns| == |xs|
    ensures forall i :: 0 <= i < |xs| ==> ns[i] == NameOf(xs[i])
  {
    if xs == [] then [] else [NameOf(xs[0])] + NamesOf(xs[1..])
  }

  /** `format_key` of the first generation: the same template as the
      second, so the repr shows the title-cased class name, the quoted name
      and the value's `str()`. */
  function FormatKey(className: string, name: string, value: PyValue): (r: string)
    ensures |r| == |className| + |name| + |Str(value)| + 9
    ensures r[..|className|] == Title(className)
    ensures r[|className| + 6..|className| + 6 + |name|] == name
    ensures r[|className| + 9 + |name|..] == Str(value)
  {
    KeyHelper.FormatKey(className, name, value)
  }
}
