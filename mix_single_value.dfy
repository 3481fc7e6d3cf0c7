/**
 * `SingleValue` and its `Counter` of the first generation. `SingleValue` has
 * the same `set`, `get` and `getset` as `String` and writes its repr inline;
 * `Counter` adds `incr` and `decr`, which hand the arithmetic to the server.
 */
module MixSingleValue {
  import opened Python
  import opened Wire
  import opened Const
  import S = Store
  import opened RedisClient
  import opened Codec
  import opened KeyHelper
  import opened MixKey
  import MixHelper
  import MixString

  /** `set`: the same guards and writes as `String.set`. */
  method Set(key: Key, v: PyValue, preserve: bool := false, expire: Option<int> := None) returns (r: Result<()>)
    modifies key.client
    ensures S.Get(old(key.client.db), key.name).Err? ==> r == Err(TypeError)
    ensures S.Get(old(key.client.db), key.name).Ok? && key.name in old(key.client.db).data && preserve ==>
      r == Err(ValueError)
    ensures r.Ok? <==>
      MixString.SetAllowed(old(key.client.db), key.name, preserve) && ToRedis(key.codec, v).Ok? && !MixString.NegativeExpiry(expire)
    ensures r.Err? ==> key.client.db == old(key.client.db)
    ensures r.Ok? && Lossless(key.codec, v) ==> MixString.Stored(key.client.db, key.name, key.codec) == Ok(v)
    ensures r.Ok? ==> S.Ttl(key.client.db, key.name) == if MixString.Expiring(expire) then expire else None
    ensures r.Ok? ==> S.SameElsewhere(old(key.client.db), key.client.db, key.name)
  {
    r := MixString.Set(key, v, preserve, expire);
  }

  method Get(key: Key) returns (r: Result<PyValue>)
    ensures r == MixString.Stored(key.client.db, key.name, key.codec)
  {
    r := MixString.Get(key);
  }

  method GetSet(key: Key, v: PyValue) returns (r: Result<PyValue>)
    modifies key.client
    ensures ToRedis(key.codec, v).Err? ==> r == Err(ValueError) && key.client.db == old(key.client.db)
    ensures ToRedis(key.codec, v).Ok? && S.Get(old(key.client.db), key.name).Err? ==>
      r == Err(TypeError) && key.client.db == old(key.client.db)
    ensures ToRedis(key.codec, v).Ok? && S.Get(old(key.client.db), key.name).Ok? ==>
      r == MixString.Stored(old(key.client.db), key.name, key.codec) &&
      key.client.db == S.Set(old(key.client.db), key.name, Str(ToRedis(key.codec, v).value))
  {
    r := MixString.GetSet(key, v);
  }

  /** `__repr__`: the class name in title case, the name and the value. */
  method Repr(key: Key, className: string) returns (r: Result<string>)
    ensures r.Ok? <==> MixString.Stored(key.client.db, key.name, key.codec).Ok?
    ensures r.Ok? ==>
      r.value == MixHelper.FormatKey(className, key.name, MixString.Stored(key.client.db, key.name, key.codec).value)
  {
    var value := Get(key);
    if value.Err? {
      return Err(value.error);
    }
    r := Ok(MixHelper.FormatKey(className, key.name, value.value));
  }

  /** The decimal text of `x` reads as `x` through a codec that reads numbers. */
  lemma DecimalReads(st: S.Store, k: string, c: Codec, x: int)
    requires S.Get(st, k) == Ok(Some(IntToString(x))) && c != String
    ensures MixString.Stored(st, k, c) == Ok(PInt(x))
  {
    MixString.StoredText(st, k, c, IntToString(x));
    ReadDecimal(Mix, c, x);
  }

  /** Through `c`, the key `k` reads as `x` in `after` and, unless it was
      absent, read as `x - n` in `st`. */
  ghost predicate CountedTo(st: S.Store, after: S.Store, k: string, c: Codec, x: int, n: int) {
    MixString.Stored(after, k, c) == Ok(PInt(x)) &&
    (k in st.data ==>
      MixString.Stored(st, k, c).Ok? && MixString.Stored(st, k, c).value.PInt? &&
      MixString.Stored(st, k, c).value.i + n == x)
  }

  /** What an INCRBY reply means for `get`: a codec that reads numbers reads
      the reply, and the key held the reply less the increment before. */
  lemma IncrByReadsBack(st: S.Store, k: string, n: int, c: Codec, w: S.Written<int>)
    requires S.IncrBy(st, k, n) == Ok(w) && c != String
    ensures CountedTo(st, w.after, k, c, w.reply, n)
  {
    S.IncrByTexts(st, k, n);
    CounterReadsBack(st, w.after, k, c, w.reply, n);
  }

  /** The decimal texts of `x - n` before and `x` after read as those numbers. */
  lemma CounterReadsBack(st: S.Store, after: S.Store, k: string, c: Codec, x: int, n: int)
    requires S.Get(after, k) == Ok(Some(IntToString(x))) && c != String
    requires k in st.data ==> S.Get(st, k) == Ok(Some(IntToString(x - n)))
    ensures CountedTo(st, after, k, c, x, n)
  {
    TextsReadBack(st, after, k, c, x, x - n);
  }

  /** `st'` is `st` with the counter `k`, read through `c`, moved on by `n`:
      the old number plus `n`, or `n` when the key was absent; every other key
      is as it was. */
  ghost predicate Added(st: S.Store, st': S.Store, k: string, c: Codec, n: int) {
    (k in st.data ==>
      MixString.Stored(st, k, c).Ok? && MixString.Stored(st, k, c).value.PInt? &&
      MixString.Stored(st', k, c) == Ok(PInt(MixString.Stored(st, k, c).value.i + n))) &&
    (k !in st.data ==> MixString.Stored(st', k, c) == Ok(PInt(n))) &&
    S.SameElsewhere(st, st', k)
  }

  /** An INCRBY that succeeds adds to the counter as a codec that reads
      numbers sees it. */
  lemma IncrByAdds(st: S.Store, k: string, n: int, c: Codec)
    requires S.IncrBy(st, k, n).Ok? && c != String
    ensures Added(st, S.IncrBy(st, k, n).value.after, k, c, n)
  {
    var w := S.IncrBy(st, k, n).value;
    IncrByReadsBack(st, k, n, c, w);
    AddedFrom(st, w.after, k, c, w.reply, n);
  }

  lemma AddedFrom(st: S.Store, after: S.Store, k: string, c: Codec, x: int, n: int)
    requires CountedTo(st, after, k, c, x, n)
    requires k !in st.data ==> x == n
    requires S.SameElsewhere(st, after, k)
    ensures Added(st, after, k, c, n)
  {
  }

  /** The decimal texts before and after an increment, read through a codec
      that reads numbers. */
  lemma TextsReadBack(st: S.Store, after: S.Store, k: string, c: Codec, x: int, y: int)
    requires S.Get(after, k) == Ok(Some(IntToString(x))) && c != String
    requires k in st.data ==> S.Get(st, k) == Ok(Some(IntToString(y)))
    ensures MixString.Stored(after, k, c) == Ok(PInt(x))
    ensures k in st.data ==> MixString.Stored(st, k, c) == Ok(PInt(y))
  {
    DecimalReads(after, k, c, x);
    if k in st.data {
      DecimalReads(st, k, c, y);
    }
  }

  /** `Counter.incr`: the server's INCRBY; any server error is `TypeError`. */
  method Incr(key: Key, increment: int := DefaultIncrement) returns (r: Result<int>)
    modifies key.client
    ensures r == RaiseWhenWrongType(Reply(S.IncrBy(old(key.client.db), key.name, increment)))
    ensures r.Err? ==> r.error == TypeError && key.client.db == old(key.client.db)
    ensures key.name !in old(key.client.db).data && InInt64(increment) ==> r == Ok(increment)
    ensures r.Ok? && key.codec != String ==> MixString.Stored(key.client.db, key.name, key.codec) == Ok(PInt(r.value))
    ensures r.Ok? ==> S.SameElsewhere(old(key.client.db), key.client.db, key.name)
    ensures r.Ok? && key.codec != String ==> Added(old(key.client.db), key.client.db, key.name, key.codec, increment)
  {
    var c := S.IncrBy(key.client.db, key.name, increment);
    if c.Ok? && key.codec != String {
      DecimalReads(c.value.after, key.name, key.codec, c.value.reply);
      IncrByAdds(key.client.db, key.name, increment, key.codec);
    }
    r := key.client.Send(c);
    r := RaiseWhenWrongType(r);
  }

  /** `Counter.decr`: the server's DECRBY. */
  method Decr(key: Key, decrement: int := DefaultDecrement) returns (r: Result<int>)
    modifies key.client
    ensures r == RaiseWhenWrongType(Reply(S.DecrBy(old(key.client.db), key.name, decrement)))
    ensures r.Err? ==> r.error == TypeError && key.client.db == old(key.client.db)
    ensures key.name !in old(key.client.db).data && InInt64(decrement) && decrement != MinInt64 ==> r == Ok(-decrement)
    ensures r.Ok? && key.codec != String ==> MixString.Stored(key.client.db, key.name, key.codec) == Ok(PInt(r.value))
    ensures r.Ok? ==> S.SameElsewhere(old(key.client.db), key.client.db, key.name)
    ensures r.Ok? && key.codec != String ==> Added(old(key.client.db), key.client.db, key.name, key.codec, -decrement)
  {
    var c := S.DecrBy(key.client.db, key.name, decrement);
    if c.Ok? && key.codec != String {
      DecimalReads(c.value.after, key.name, key.codec, c.value.reply);
      IncrByAdds(key.client.db, key.name, -decrement, key.codec);
    }
    r := key.client.Send(c);
    r := RaiseWhenWrongType(r);
  }

  /** `Counter.__iadd__`: `incr`, then the key itself. */
  method IAdd(key: Key, increment: int) returns (r: Result<Key>)
    modifies key.client
    ensures r.Ok? <==> RaiseWhenWrongType(Reply(S.IncrBy(old(key.client.db), key.name, increment))).Ok?
    ensures r.Ok? ==> r.value == key && S.SameElsewhere(old(key.client.db), key.client.db, key.name)
    ensures r.Ok? && key.codec != String ==> Added(old(key.client.db), key.client.db, key.name, key.codec, increment)
    ensures r.Err? ==> r.error == TypeError && key.client.db == old(key.client.db)
  {
    var n := Incr(key, increment);
    if n.Err? {
      return Err(n.error);
    }
    r := Ok(key);
  }

  /** `Counter.__isub__`: `decr`, then the key itself. */
  method ISub(key: Key, decrement: int) returns (r: Result<Key>)
    modifies key.client
    ensures r.Ok? <==> RaiseWhenWrongType(Reply(S.DecrBy(old(key.client.db), key.name, decrement))).Ok?
    ensures r.Ok? ==> r.value == key && S.SameElsewhere(old(key.client.db), key.client.db, key.name)
    ensures r.Ok? && key.codec != String ==> Added(old(key.client.db), key.client.db, key.name, key.codec, -decrement)
    ensures r.Err? ==> r.error == TypeError && key.client.db == old(key.client.db)
  {
    var n := Decr(key, decrement);
    if n.Err? {
      return Err(n.error);
    }
    r := Ok(key);
  }
}
