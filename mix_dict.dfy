/**
 * `Dict` of the first generation: a server hash whose values go through
 * `to_redis` / `to_python`, keyed by the text of the Python key. Reading a
 * field and incrementing one first check the key's type themselves, so a
 * key of another type is `TypeError` before the field is looked at.
 */
module MixDict {
  import opened Python
  import opened Wire
  import opened Const
  import S = Store
  import opened HashCommands
  import opened RedisClient
  import opened Codec
  import opened KeyHelper
  import opened MixKey

  /** `d[field] = value`: the field holds the value's text, whether it was
      there or not. */
  method SetItem(key: Key, field: PyValue, value: PyValue) returns (r: Result<()>)
    modifies key.client
    ensures Write(Mix, key.codec, value).Err? ==> r == Err(ValueError)
    ensures Write(Mix, key.codec, value).Ok? && HashAt(old(key.client.db), key.name).Err? ==> r == Err(TypeError)
    ensures r.Ok? <==> Write(Mix, key.codec, value).Ok? && HashAt(old(key.client.db), key.name).Ok?
    ensures r.Err? ==> key.client.db == old(key.client.db)
    ensures r.Ok? ==>
      FieldsOf(key.client.db, key.name) ==
      FieldsOf(old(key.client.db), key.name)[Str(field) := Str(Write(Mix, key.codec, value).value)]
    ensures r.Ok? ==> S.SameElsewhere(old(key.client.db), key.client.db, key.name)
    ensures r.Ok? ==> S.Ttl(key.client.db, key.name) == S.Ttl(old(key.client.db), key.name)
    ensures S.Valid(old(key.client.db)) ==> S.Valid(key.client.db)
  {
    var text := Write(Mix, key.codec, value);
    if text.Err? {
      WriteFailsWith(Mix, key.codec, value);
      return Err(text.error);
    }
    var written := key.client.Send(HSet(key.client.db, key.name, Str(field), Str(text.value)));
    written := RaiseWhenWrongType(written);
    if written.Err? {
      return Err(written.error);
    }
    r := Ok(());
  }

  /** `d[field]`: `TypeError` for a key of another type, `KeyError` for an
      absent field, otherwise the field's text read by the codec. */
  method GetItem(key: Key, field: PyValue) returns (r: Result<PyValue>)
    ensures HashAt(key.client.db, key.name).Err? ==> r == Err(TypeError)
    ensures HashAt(key.client.db, key.name).Ok? && Str(field) !in FieldsOf(key.client.db, key.name) ==>
      r == Err(KeyError)
    ensures HashAt(key.client.db, key.name).Ok? && Str(field) in FieldsOf(key.client.db, key.name) ==>
      r == Read(Mix, key.codec, PStr(FieldsOf(key.client.db, key.name)[Str(field)]))
  {
    var present := Exists(key);
    if present {
      var tag := Represent(key);
      if tag != RedisType(HashRep) {
        return Err(TypeError);
      }
      RedisTypeInjective(HashRep, S.RepOf(key.client.db, key.name));
    }
    var has := HExists(key.client.db, key.name, Str(field)).value;
    if !has {
      return Err(KeyError);
    }
    var text := HGet(key.client.db, key.name, Str(field)).value;
    r := Read(Mix, key.codec, PStr(text.value));
  }

  /** `del d[field]`: the field is gone; an absent field is no error. */
  method DelItem(key: Key, field: PyValue) returns (r: Result<()>)
    modifies key.client
    ensures r.Err? <==> HashAt(old(key.client.db), key.name).Err?
    ensures r.Err? ==> r.error == TypeError && key.client.db == old(key.client.db)
    ensures r.Ok? ==> FieldsOf(key.client.db, key.name) == FieldsOf(old(key.client.db), key.name) - {Str(field)}
    ensures r.Ok? ==> S.SameElsewhere(old(key.client.db), key.client.db, key.name)
    ensures S.Valid(old(key.client.db)) ==> S.Valid(key.client.db)
  {
    var removed := key.client.Send(HDel(key.client.db, key.name, Str(field)));
    removed := RaiseWhenWrongType(removed);
    if removed.Err? {
      return Err(removed.error);
    }
    r := Ok(());
  }

  /** `__iter__`: the field names. */
  method Iter(key: Key) returns (r: Result<set<string>>)
    ensures r.Err? <==> HashAt(key.client.db, key.name).Err?
    ensures r.Err? ==> r.error == TypeError
    ensures r.Ok? ==> r.value == FieldsOf(key.client.db, key.name).Keys
  {
    r := RaiseWhenWrongType(HKeys(key.client.db, key.name));
  }

  /** `__len__`: the number of fields, 0 for an absent key. */
  method Len(key: Key) returns (r: Result<nat>)
    ensures r.Err? <==> HashAt(key.client.db, key.name).Err?
    ensures r.Err? ==> r.error == TypeError
    ensures r.Ok? ==> r.value == |FieldsOf(key.client.db, key.name).Keys|
    ensures key.name !in key.client.db.data ==> r == Ok(0)
  {
    r := RaiseWhenWrongType(HLen(key.client.db, key.name));
  }

  /** `incr(field, increment)`: `TypeError` for a key of another type; any
      server error of HINCRBY, such as a field that holds no integer, is
      `KeyError`. The reply is the new value. */
  method Incr(key: Key, field: PyValue, increment: int := DefaultIncrement) returns (r: Result<int>)
    modifies key.client
    ensures HashAt(old(key.client.db), key.name).Err? ==> r == Err(TypeError)
    ensures HashAt(old(key.client.db), key.name).Ok? ==>
      (r.Ok? <==> HIncrBy(old(key.client.db), key.name, Str(field), increment).Ok?)
    ensures HashAt(old(key.client.db), key.name).Ok? && r.Err? ==> r.error == KeyError
    ensures r.Err? ==> key.client.db == old(key.client.db)
    ensures r.Ok? && Str(field) in FieldsOf(old(key.client.db), key.name) ==>
      RedisInt(FieldsOf(old(key.client.db), key.name)[Str(field)]).Some? &&
      RedisInt(FieldsOf(old(key.client.db), key.name)[Str(field)]).value + increment == r.value
    ensures r.Ok? && Str(field) !in FieldsOf(old(key.client.db), key.name) ==> r.value == increment
    ensures r.Ok? ==> FieldsOf(key.client.db, key.name) == FieldsOf(old(key.client.db), key.name)[Str(field) := IntToString(r.value)]
    ensures r.Ok? ==> S.SameElsewhere(old(key.client.db), key.client.db, key.name)
    ensures S.Valid(old(key.client.db)) ==> S.Valid(key.client.db)
  {
    var present := Exists(key);
    if present {
      var tag := Represent(key);
      if tag != RedisType(HashRep) {
        return Err(TypeError);
      }
      RedisTypeInjective(HashRep, S.RepOf(key.client.db, key.name));
    }
    var sum := key.client.Send(HIncrBy(key.client.db, key.name, Str(field), increment));
    if sum.Err? {
      return Err(KeyError);
    }
    r := Ok(sum.value);
  }

  /** `decr(field, decrement)` is `incr(field, 0 - decrement)`. */
  method Decr(key: Key, field: PyValue, decrement: int := DefaultDecrement) returns (r: Result<int>)
    modifies key.client
    ensures HashAt(old(key.client.db), key.name).Err? ==> r == Err(TypeError)
    ensures HashAt(old(key.client.db), key.name).Ok? ==>
      (r.Ok? <==> HIncrBy(old(key.client.db), key.name, Str(field), 0 - decrement).Ok?)
    ensures HashAt(old(key.client.db), key.name).Ok? && r.Err? ==> r.error == KeyError
    ensures r.Err? ==> key.client.db == old(key.client.db)
    ensures r.Ok? && Str(field) in FieldsOf(old(key.client.db), key.name) ==>
      RedisInt(FieldsOf(old(key.client.db), key.name)[Str(field)]).Some? &&
      RedisInt(FieldsOf(old(key.client.db), key.name)[Str(field)]).value - decrement == r.value
    ensures r.Ok? && Str(field) !in FieldsOf(old(key.client.db), key.name) ==> r.value == 0 - decrement
    ensures r.Ok? ==> FieldsOf(key.client.db, key.name) == FieldsOf(old(key.client.db), key.name)[Str(field) := IntToString(r.value)]
    ensures r.Ok? ==> S.SameElsewhere(old(key.client.db), key.client.db, key.name)
  {
    r := Incr(key, field, 0 - decrement);
  }

  /** `d[field] = v` then `d[field]`: the field's text reads back as `v`. */
  lemma AssignThenRead(st: S.Store, k: string, c: Codec, field: PyValue, v: PyValue)
    requires HashAt(st, k).Ok?
    requires Write(Mix, c, v).Ok? && Lossless(c, v)
    ensures var after := HSet(st, k, Str(field), Str(Write(Mix, c, v).value)).value.after;
      HashAt(after, k).Ok? && Str(field) in FieldsOf(after, k) &&
      Read(Mix, c, PStr(FieldsOf(after, k)[Str(field)])) == Ok(v)
  {
    RoundTrip(Mix, c, v);
  }

  /** `incr(field, n)` then `decr(field, n)` on a field holding an integer
      leaves the field's integer as it was. */
  lemma IncrThenDecr(st: S.Store, k: string, f: string, n: int)
    requires HIncrBy(st, k, f, n).Ok? && InInt64(0 - n)
    requires f in FieldsOf(st, k)
    ensures var once := HIncrBy(st, k, f, n).value;
      var back := HIncrBy(once.after, k, f, 0 - n);
      back.Ok? && RedisInt(FieldsOf(back.value.after, k)[f]) == RedisInt(FieldsOf(st, k)[f])
  {
    var once := HIncrBy(st, k, f, n).value;
    RedisIntRoundTrip(once.reply);
    assert FieldsOf(once.after, k)[f] == IntToString(once.reply);
    assert HashAt(once.after, k).Ok?;
    assert FieldInt(FieldsOf(once.after, k), f) == Ok(once.reply);
    var back := HIncrBy(once.after, k, f, 0 - n);
    assert back.Ok?;
    RedisIntRoundTrip(back.value.reply);
  }
}
