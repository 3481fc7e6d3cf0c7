/**
 * `String` of the first generation: `set` with its type guard, the `preserve`
 * flag and an optional expiry, `get`, `getset` and the repr. Values go through
 * `to_redis` / `to_python`, so a value the codec refuses is a `ValueError`;
 * a wrong-type reply of the server becomes `TypeError`.
 */
module MixString {
  import opened Python
  import opened Wire
  import opened Const
  import S = Store
  import opened RedisClient
  import opened Codec
  import opened KeyHelper
  import opened MixKey
  import MixHelper

  /** What `get` gives: the value read by the first-generation codec, the
      absent marker for an absent key, `TypeError` for a key of another type. */
  function Stored(st: S.Store, k: string, c: Codec): (r: Result<PyValue>)
    ensures k !in st.data ==> r == Ok(PNone)
    ensures k in st.data && !st.data[k].Text? ==> r == Err(TypeError)
    ensures k in st.data && st.data[k].Text? ==> r == Read(Mix, c, PStr(st.data[k].s))
    ensures r.Err? ==> r.error == TypeError || r.error == ValueError
  {
    match S.Get(st, k)
    case Err(_) => Err(TypeError)
    case Ok(w) => ReadTextFailsWith(Mix, c, if w.Some? then w.value else ""); ReadWire(Mix, c, w)
  }

  /** A key the server answers with text `t` gives what the codec reads from `t`. */
  lemma StoredText(st: S.Store, k: string, c: Codec, t: string)
    requires S.Get(st, k) == Ok(Some(t))
    ensures Stored(st, k, c) == Read(Mix, c, PStr(t))
  {
  }

  /** Python's truth value of the `expire` argument: given and not zero. */
  predicate Expiring(expire: Option<int>) { expire.Some? && expire.value != 0 }

  /** An expiry the server refuses. */
  predicate NegativeExpiry(expire: Option<int>) { expire.Some? && expire.value < 0 }

  /** The two guards of `set`: the key holds a string or nothing, and with
      `preserve` it holds nothing. */
  predicate SetAllowed(st: S.Store, k: string, preserve: bool) {
    S.Get(st, k).Ok? && !(k in st.data && preserve)
  }

  /** `set(python_value, preserve, expire)`. The type guard comes first, then
      `preserve`, then the codec; a non-zero `expire` sends SETEX, whose
      rejection of a negative time is not translated. */
  method Set(key: Key, v: PyValue, preserve: bool := false, expire: Option<int> := None) returns (r: Result<()>)
    modifies key.client
    ensures S.Get(old(key.client.db), key.name).Err? ==> r == Err(TypeError)
    ensures S.Get(old(key.client.db), key.name).Ok? && key.name in old(key.client.db).data && preserve ==>
      r == Err(ValueError)
    ensures SetAllowed(old(key.client.db), key.name, preserve) && ToRedis(key.codec, v).Err? ==>
      r == Err(ValueError)
    ensures SetAllowed(old(key.client.db), key.name, preserve) && ToRedis(key.codec, v).Ok? && NegativeExpiry(expire) ==>
      r == Err(ResponseError(InvalidExpireTime))
    ensures r.Ok? <==>
      SetAllowed(old(key.client.db), key.name, preserve) && ToRedis(key.codec, v).Ok? && !NegativeExpiry(expire)
    ensures r.Err? ==> key.client.db == old(key.client.db)
    ensures r.Ok? ==> S.Get(key.client.db, key.name) == Ok(Some(Str(ToRedis(key.codec, v).value)))
    ensures r.Ok? && Lossless(key.codec, v) ==> Stored(key.client.db, key.name, key.codec) == Ok(v)
    ensures r.Ok? ==> S.Ttl(key.client.db, key.name) == if Expiring(expire) then expire else None
    ensures r.Ok? ==> S.SameElsewhere(old(key.client.db), key.client.db, key.name)
    ensures r.Ok? && S.Valid(old(key.client.db)) ==> S.Valid(key.client.db)
  {
    var present := Exists(key);
    if present {
      var tag := Represent(key);
      if tag != RedisType(StringRep) {
        return Err(TypeError);
      }
      RedisTypeInjective(S.RepOf(key.client.db, key.name), StringRep);
    }
    if present && preserve {
      return Err(ValueError);
    }
    var encoded := ToRedis(key.codec, v);
    if encoded.Err? {
      return Err(encoded.error);
    }
    var text := Str(encoded.value);
    if Expiring(expire) {
      r := key.client.SendStatus(S.SetEx(key.client.db, key.name, expire.value, text));
    } else {
      var _ := key.client.Send(Ok(S.Written((), S.Set(key.client.db, key.name, text))));
      r := Ok(());
    }
    if r.Ok? && Lossless(key.codec, v) {
      StoredText(key.client.db, key.name, key.codec, text);
      RoundTrip(Mix, key.codec, v);
    }
  }

  /** `get`: the stored value through the codec. */
  method Get(key: Key) returns (r: Result<PyValue>)
    ensures r == Stored(key.client.db, key.name, key.codec)
  {
    var reply := RaiseWhenWrongType(S.Get(key.client.db, key.name));
    if reply.Err? {
      return Err(reply.error);
    }
    r := ReadWire(Mix, key.codec, reply.value);
  }

  /** `getset`: the new value goes in and the previous one, read back, comes
      out. There is no type guard: the server refuses a key of another type. */
  method GetSet(key: Key, v: PyValue) returns (r: Result<PyValue>)
    modifies key.client
    ensures ToRedis(key.codec, v).Err? ==> r == Err(ValueError)
    ensures ToRedis(key.codec, v).Ok? && S.Get(old(key.client.db), key.name).Err? ==> r == Err(TypeError)
    ensures ToRedis(key.codec, v).Err? || S.Get(old(key.client.db), key.name).Err? ==>
      key.client.db == old(key.client.db)
    ensures ToRedis(key.codec, v).Ok? && S.Get(old(key.client.db), key.name).Ok? ==>
      r == Stored(old(key.client.db), key.name, key.codec) &&
      key.client.db == S.Set(old(key.client.db), key.name, Str(ToRedis(key.codec, v).value))
  {
    var encoded := ToRedis(key.codec, v);
    if encoded.Err? {
      return Err(encoded.error);
    }
    var reply := key.client.Send(S.GetSet(key.client.db, key.name, Str(encoded.value)));
    reply := RaiseWhenWrongType(reply);
    if reply.Err? {
      return Err(reply.error);
    }
    r := ReadWire(Mix, key.codec, reply.value);
  }

  /** `__repr__`, for a key whose class is named `className`. */
  method Repr(key: Key, className: string) returns (r: Result<string>)
    ensures r.Ok? <==> Stored(key.client.db, key.name, key.codec).Ok?
    ensures r.Ok? ==> r.value == MixHelper.FormatKey(className, key.name, Stored(key.client.db, key.name, key.codec).value)
    ensures r.Err? ==> r.error == Stored(key.client.db, key.name, key.codec).error
  {
    var value := Get(key);
    if value.Err? {
      return Err(value.error);
    }
    r := Ok(MixHelper.FormatKey(className, key.name, value.value));
  }

  /** Setting a value and getting it back gives the value, for every codec. */
  lemma SetThenGet(st: S.Store, k: string, c: Codec, v: PyValue)
    requires ToRedis(c, v).Ok? && Lossless(c, v)
    ensures Stored(S.Set(st, k, Str(ToRedis(c, v).value)), k, c) == Ok(v)
  {
    StoredText(S.Set(st, k, Str(ToRedis(c, v).value)), k, c, Str(ToRedis(c, v).value));
    RoundTrip(Mix, c, v);
  }
}
