/**
 * `Dict` of the second generation: a server hash whose values go through
 * `encode` / `decode`, keyed by the text of the Python key. A key of another
 * type and a value the codec cannot handle are `TypeError`; an absent field
 * is `KeyError` for reading and for deleting.
 */
module KeyDict {
  import opened Python
  import opened Wire
  import S = Store
  import opened HashCommands
  import opened RedisClient
  import opened Codec
  import opened KeyHelper
  import opened BaseKey

  /** `field in d`: whether the hash has the field. */
  method Contains(key: Key, field: PyValue) returns (r: Result<bool>)
    ensures r.Err? <==> HashAt(key.client.db, key.name).Err?
    ensures r.Err? ==> r.error == TypeError
    ensures r.Ok? ==> (r.value <==> Str(field) in FieldsOf(key.client.db, key.name))
  {
    r := RaiseWhenWrongType(HExists(key.client.db, key.name, Str(field)));
  }

  /** `d[field] = value`: the field holds the encoded value, whether it was
      there or not. */
  method SetItem(key: Key, field: PyValue, value: PyValue) returns (r: Result<()>)
    modifies key.client
    ensures r.Ok? <==> Write(Package, key.codec, value).Ok? && HashAt(old(key.client.db), key.name).Ok?
    ensures r.Err? ==> r == Err(TypeError) && key.client.db == old(key.client.db)
    ensures r.Ok? ==>
      FieldsOf(key.client.db, key.name) ==
      FieldsOf(old(key.client.db), key.name)[Str(field) := Str(Write(Package, key.codec, value).value)]
    ensures r.Ok? ==> S.SameElsewhere(old(key.client.db), key.client.db, key.name)
    ensures r.Ok? ==> S.Ttl(key.client.db, key.name) == S.Ttl(old(key.client.db), key.name)
    ensures S.Valid(old(key.client.db)) ==> S.Valid(key.client.db)
  {
    var encoded := Write(Package, key.codec, value);
    if encoded.Err? {
      WriteFailsWith(Package, key.codec, value);
      return Err(encoded.error);
    }
    var written := key.client.Send(HSet(key.client.db, key.name, Str(field), Str(encoded.value)));
    written := RaiseWhenWrongType(written);
    if written.Err? {
      return Err(written.error);
    }
    r := Ok(());
  }

  /** `d[field]`: `KeyError` for an absent field, otherwise the field's text
      decoded; a key of another type or a text the codec cannot read is
      `TypeError`. */
  method GetItem(key: Key, field: PyValue) returns (r: Result<PyValue>)
    ensures HashAt(key.client.db, key.name).Err? ==> r == Err(TypeError)
    ensures HashAt(key.client.db, key.name).Ok? && Str(field) !in FieldsOf(key.client.db, key.name) ==>
      r == Err(KeyError)
    ensures HashAt(key.client.db, key.name).Ok? && Str(field) in FieldsOf(key.client.db, key.name) ==>
      r == Read(Package, key.codec, PStr(FieldsOf(key.client.db, key.name)[Str(field)]))
    ensures r.Err? ==> r.error == TypeError || r.error == KeyError
  {
    var has := Contains(key, field);
    if has.Err? {
      return Err(has.error);
    }
    if !has.value {
      return Err(KeyError);
    }
    var text := HGet(key.client.db, key.name, Str(field)).value;
    ReadTextFailsWith(Package, key.codec, text.value);
    r := Read(Package, key.codec, PStr(text.value));
  }

  /** `del d[field]`: the field is gone; `KeyError` when there was none. */
  method DelItem(key: Key, field: PyValue) returns (r: Result<()>)
    modifies key.client
    ensures HashAt(old(key.client.db), key.name).Err? ==> r == Err(TypeError) && key.client.db == old(key.client.db)
    ensures HashAt(old(key.client.db), key.name).Ok? ==> (r.Ok? <==> Str(field) in FieldsOf(old(key.client.db), key.name))
    ensures HashAt(old(key.client.db), key.name).Ok? && r.Err? ==> r.error == KeyError
    ensures HashAt(old(key.client.db), key.name).Ok? ==>
      FieldsOf(key.client.db, key.name) == FieldsOf(old(key.client.db), key.name) - {Str(field)}
    ensures HashAt(old(key.client.db), key.name).Ok? ==> S.SameElsewhere(old(key.client.db), key.client.db, key.name)
    ensures S.Valid(old(key.client.db)) ==> S.Valid(key.client.db)
  {
    var removed := key.client.Send(HDel(key.client.db, key.name, Str(field)));
    removed := RaiseWhenWrongType(removed);
    if removed.Err? {
      return Err(removed.error);
    }
    if removed.value == 0 {
      return Err(KeyError);
    }
    r := Ok(());
  }

  /** `__iter__`: the field names. */
  method Iter(key: Key) returns (r: Result<set<string>>)
    ensures r.Err? <==> HashAt(key.client.db, key.name).Err?
    ensures r.Err? ==> r.error == TypeError
    ensures r.Ok? ==> r.value == FieldsOf(key.client.db, key.name).Keys
  {
    r := RaiseWhenWrongType(HKeys(key.client.db, key.name));
  }

  /** `__len__`: the number of fields, 0 for an absent key. */
  method Len(key: Key) returns (r: Result<nat>)
    ensures r.Err? <==> HashAt(key.client.db, key.name).Err?
    ensures r.Err? ==> r.error == TypeError
    ensures r.Ok? ==> r.value == |FieldsOf(key.client.db, key.name).Keys|
    ensures key.name !in key.client.db.data ==> r == Ok(0)
  {
    r := RaiseWhenWrongType(HLen(key.client.db, key.name));
  }

  /** `d[field] = v` then `d[field]`: the field is present and its text
      decodes back to `v`. */
  lemma AssignThenRead(st: S.Store, k: string, c: Codec, field: PyValue, v: PyValue)
    requires HashAt(st, k).Ok?
    requires Write(Package, c, v).Ok? && Lossless(c, v)
    ensures var after := HSet(st, k, Str(field), Str(Write(Package, c, v).value)).value.after;
      HashAt(after, k).Ok? && Str(field) in FieldsOf(after, k) &&
      Read(Package, c, PStr(FieldsOf(after, k)[Str(field)])) == Ok(v)
  {
    var text := Str(Write(Package, c, v).value);
    FieldHolds(st, k, Str(field), text);
    RoundTrip(Package, c, v);
  }

  /** After HSET the field holds the text it was given. */
  lemma FieldHolds(st: S.Store, k: string, f: string, text: string)
    requires HashAt(st, k).Ok?
    ensures var after := HSet(st, k, f, text).value.after;
      HashAt(after, k).Ok? && f in FieldsOf(after, k) && FieldsOf(after, k)[f] == text
  {
  }

  /** Deleting a field twice: the second `del` finds nothing and is a `KeyError`. */
  lemma DeleteTwice(st: S.Store, k: string, f: string)
    requires HashAt(st, k).Ok?
    ensures var once := HDel(st, k, f).value.after;
      HDel(once, k, f).Ok? && HDel(once, k, f).value.reply == 0
  {
    var once := HDel(st, k, f).value.after;
    assert HashAt(once, k).Ok? by {
      assert once == S.Put(st, k, S.Hash(FieldsOf(st, k) - {f}));
    }
  }
}
