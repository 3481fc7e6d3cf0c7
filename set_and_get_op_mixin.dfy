/**
 * `set`, `setnx`, `setex`, `get` and `getset` of the second generation of
 * keys. The writes refuse a key that holds something other than a string
 * (the server would overwrite it); the reads decode what the server answers.
 */
module SetAndGetOpMixin {
  import opened Python
  import opened Wire
  import opened Const
  import S = Store
  import opened RedisClient
  import opened Codec
  import opened KeyHelper
  import opened BaseKey
  import C = CommonKeyPropertyMixin

  /** The guard of the writes: the key is absent or holds a string. */
  predicate Settable(st: S.Store, k: string) { k !in st.data || st.data[k].Text? }

  /** What `get` gives: the decoded string, the absent marker for an absent
      key, `TypeError` for a key of another type. */
  function Stored(st: S.Store, k: string, c: Codec): (r: Result<PyValue>)
    ensures k !in st.data ==> r == Ok(PNone)
    ensures !Settable(st, k) ==> r == Err(TypeError)
    ensures k in st.data && st.data[k].Text? ==> r == Read(Package, c, PStr(st.data[k].s))
    ensures r.Err? ==> r.error == TypeError
  {
    match S.Get(st, k)
    case Err(_) => Err(TypeError)
    case Ok(w) => ReadTextFailsWith(Package, c, if w.Some? then w.value else ""); ReadWire(Package, c, w)
  }

  /** A key the server answers with text `t` gives what the codec reads from `t`. */
  lemma StoredText(st: S.Store, k: string, c: Codec, t: string)
    requires S.Get(st, k) == Ok(Some(t))
    ensures Stored(st, k, c) == Read(Package, c, PStr(t))
  {
  }

  /** A stored text that Python reads as the integer `x` comes back as `x`
      through the integer codec. */
  lemma IntTextReads(st: S.Store, k: string, x: int)
    requires k in st.data && st.data[k].Text? && PyInt(st.data[k].s) == Some(x)
    ensures Stored(st, k, Int) == Ok(PInt(x))
  {
    StoredText(st, k, Int, st.data[k].s);
    ReadInteger(Package, st.data[k].s, x);
  }

  /** The decimal text of `x`, as the server stores it, reads back as `x`
      through the integer codec. */
  lemma DecimalTextReads(st: S.Store, k: string, x: int)
    requires S.Get(st, k) == Ok(Some(IntToString(x)))
    ensures Stored(st, k, Int) == Ok(PInt(x))
  {
    StoredText(st, k, Int, IntToString(x));
    ReadDecimal(Package, Int, x);
  }

  /** A value written through a codec is read back as itself. */
  lemma SetThenGet(st: S.Store, k: string, c: Codec, v: PyValue)
    requires Encode(c, v).Ok? && Lossless(c, v)
    ensures Stored(S.Set(st, k, Str(Encode(c, v).value)), k, c) == Ok(v)
  {
    RoundTrip(Package, c, v);
  }

  /** `raise_when_set_wrong_type`: `TypeError` when the key exists and its
      representation is not `string`. */
  method RaiseWhenSetWrongType(key: Key) returns (r: Result<()>)
    ensures r.Ok? <==> Settable(key.client.db, key.name)
    ensures r.Err? ==> r.error == TypeError
  {
    var present := C.Exists(key);
    if present {
      var tag := C.Represent(key);
      if tag != RedisType(StringRep) {
        return Err(TypeError);
      }
      RedisTypeInjective(S.RepOf(key.client.db, key.name), StringRep);
    }
    r := Ok(());
  }

  method Set(key: Key, v: PyValue) returns (r: Result<()>)
    modifies key.client
    ensures r.Ok? <==> Settable(old(key.client.db), key.name) && Encode(key.codec, v).Ok?
    ensures !Settable(old(key.client.db), key.name) ==> r == Err(TypeError)
    ensures r.Err? ==> key.client.db == old(key.client.db)
    ensures r.Ok? ==> key.client.db == S.Set(old(key.client.db), key.name, Str(Encode(key.codec, v).value))
    ensures r.Ok? && Lossless(key.codec, v) ==> Stored(key.client.db, key.name, key.codec) == Ok(v)
  {
    r := RaiseWhenSetWrongType(key);
    if r.Err? {
      return;
    }
    var encoded := Encode(key.codec, v);
    if encoded.Err? {
      return Err(encoded.error);
    }
    var _ := key.client.Send(Ok(S.Written((), S.Set(key.client.db, key.name, Str(encoded.value)))));
    if Lossless(key.codec, v) {
      SetThenGet(old(key.client.db), key.name, key.codec, v);
    }
  }

  /** `setnx`: writes only when the key is absent; the reply says whether it did. */
  method SetNx(key: Key, v: PyValue) returns (r: Result<bool>)
    modifies key.client
    ensures r.Ok? <==> Settable(old(key.client.db), key.name) && Encode(key.codec, v).Ok?
    ensures !Settable(old(key.client.db), key.name) ==> r == Err(TypeError)
    ensures r.Err? ==> key.client.db == old(key.client.db)
    ensures r.Ok? ==> (r.value <==> key.name !in old(key.client.db).data)
    ensures r.Ok? && !r.value ==> key.client.db == old(key.client.db)
    ensures r.Ok? && r.value ==> key.client.db == S.Set(old(key.client.db), key.name, Str(Encode(key.codec, v).value))
  {
    var guard := RaiseWhenSetWrongType(key);
    if guard.Err? {
      return Err(guard.error);
    }
    var encoded := Encode(key.codec, v);
    if encoded.Err? {
      return Err(encoded.error);
    }
    r := key.client.Send(Ok(S.SetNx(key.client.db, key.name, Str(encoded.value))));
  }

  /** `setex`: the value with a deadline. A time the server rejects comes back
      as the server's error, since this method has no translation wrapper. */
  method SetEx(key: Key, v: PyValue, ttl: int) returns (r: Result<()>)
    modifies key.client
    ensures !Settable(old(key.client.db), key.name) ==> r == Err(TypeError)
    ensures Settable(old(key.client.db), key.name) && Encode(key.codec, v).Ok? && ttl <= 0 ==>
      r == Err(ResponseError(InvalidExpireTime))
    ensures r.Ok? <==> Settable(old(key.client.db), key.name) && Encode(key.codec, v).Ok? && ttl > 0
    ensures r.Err? ==> key.client.db == old(key.client.db)
    ensures r.Ok? ==> S.Get(key.client.db, key.name) == Ok(Some(Str(Encode(key.codec, v).value)))
    ensures r.Ok? ==> S.Ttl(key.client.db, key.name) == Some(ttl)
    ensures r.Ok? ==> S.SameElsewhere(old(key.client.db), key.client.db, key.name)
  {
    r := RaiseWhenSetWrongType(key);
    if r.Err? {
      return;
    }
    var encoded := Encode(key.codec, v);
    if encoded.Err? {
      return Err(encoded.error);
    }
    r := key.client.SendStatus(S.SetEx(key.client.db, key.name, ttl, Str(encoded.value)));
  }

  method Get(key: Key) returns (r: Result<PyValue>)
    ensures r == Stored(key.client.db, key.name, key.codec)
  {
    var reply := RaiseWhenWrongType(S.Get(key.client.db, key.name));
    if reply.Err? {
      return Err(reply.error);
    }
    r := ReadWire(Package, key.codec, reply.value);
  }

  /** `getset`: the new value goes in and the previous one, decoded, comes out. */
  method GetSet(key: Key, v: PyValue) returns (r: Result<PyValue>)
    modifies key.client
    ensures Encode(key.codec, v).Err? ==> r == Err(Encode(key.codec, v).error)
    ensures Encode(key.codec, v).Ok? && !Settable(old(key.client.db), key.name) ==> r == Err(TypeError)
    ensures Encode(key.codec, v).Err? || !Settable(old(key.client.db), key.name) ==> key.client.db == old(key.client.db)
    ensures Encode(key.codec, v).Ok? && Settable(old(key.client.db), key.name) ==>
      r == Stored(old(key.client.db), key.name, key.codec) &&
      key.client.db == S.Set(old(key.client.db), key.name, Str(Encode(key.codec, v).value))
  {
    var encoded := Encode(key.codec, v);
    if encoded.Err? {
      return Err(encoded.error);
    }
    var reply := key.client.Send(S.GetSet(key.client.db, key.name, Str(encoded.value)));
    reply := RaiseWhenWrongType(reply);
    if reply.Err? {
      return Err(reply.error);
    }
    r := ReadWire(Package, key.codec, reply.value);
  }
}
