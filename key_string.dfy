/**
 * `String` of the second generation: a base key with the common operations
 * and `set`/`get`; its repr shows the decoded value.
 */
module KeyString {
  import opened Python
  import S = Store
  import opened Codec
  import opened KeyHelper
  import opened BaseKey
  import opened SetAndGetOpMixin

  /** `__repr__`, for a key whose class is named `className`. */
  method Repr(key: Key, className: string) returns (r: Result<string>)
    ensures r.Ok? <==> Stored(key.client.db, key.name, key.codec).Ok?
    ensures r.Ok? ==> r.value == FormatKey(className, key.name, Stored(key.client.db, key.name, key.codec).value)
    ensures r.Err? ==> r.error == TypeError
  {
    var value := Get(key);
    if value.Err? {
      return Err(value.error);
    }
    r := Ok(FormatKey(className, key.name, value.value));
  }

  /** An absent key shows `None`. */
  lemma AbsentShowsNone(st: S.Store, name: string, c: Codec)
    requires name !in st.data
    ensures Stored(st, name, c) == Ok(PNone)
    ensures FormatKey("String", name, PNone) == "String Key '" + name + "': None"
  {
    TitleOfWord("String");
  }
}
