/**
 * `Counter` of the first generation as a class of its own: a `SingleValue`
 * whose `incr`, `decr`, `+=` and `-=` run the server's INCRBY and DECRBY.
 * An absent counter counts from 0.
 */
module MixCounter {
  import opened Python
  import opened Wire
  import opened Const
  import S = Store
  import opened RedisClient
  import opened Codec
  import opened KeyHelper
  import opened MixKey
  import MixString
  import MixSingleValue

  /** `incr`: the counter after adding `increment`. */
  method Incr(key: Key, increment: int := DefaultIncrement) returns (r: Result<int>)
    modifies key.client
    ensures r == RaiseWhenWrongType(Reply(S.IncrBy(old(key.client.db), key.name, increment)))
    ensures r.Err? ==> r.error == TypeError && key.client.db == old(key.client.db)
    ensures key.name !in old(key.client.db).data && InInt64(increment) ==> r == Ok(increment)
    ensures r.Ok? && key.codec != String ==> MixString.Stored(key.client.db, key.name, key.codec) == Ok(PInt(r.value))
    ensures r.Ok? ==> S.SameElsewhere(old(key.client.db), key.client.db, key.name)
    ensures r.Ok? && key.codec != String ==>
      MixSingleValue.Added(old(key.client.db), key.client.db, key.name, key.codec, increment)
  {
    var c := S.IncrBy(key.client.db, key.name, increment);
    if c.Ok? && key.codec != String {
      MixSingleValue.DecimalReads(c.value.after, key.name, key.codec, c.value.reply);
      MixSingleValue.IncrByAdds(key.client.db, key.name, increment, key.codec);
    }
    r := key.client.Send(c);
    r := RaiseWhenWrongType(r);
  }

  /** `decr`: the counter after subtracting `decrement`. */
  method Decr(key: Key, decrement: int := DefaultDecrement) returns (r: Result<int>)
    modifies key.client
    ensures r == RaiseWhenWrongType(Reply(S.DecrBy(old(key.client.db), key.name, decrement)))
    ensures r.Err? ==> r.error == TypeError && key.client.db == old(key.client.db)
    ensures key.name !in old(key.client.db).data && InInt64(decrement) && decrement != MinInt64 ==> r == Ok(-decrement)
    ensures r.Ok? && key.codec != String ==> MixString.Stored(key.client.db, key.name, key.codec) == Ok(PInt(r.value))
    ensures r.Ok? ==> S.SameElsewhere(old(key.client.db), key.client.db, key.name)
    ensures r.Ok? && key.codec != String ==>
      MixSingleValue.Added(old(key.client.db), key.client.db, key.name, key.codec, -decrement)
  {
    var c := S.DecrBy(key.client.db, key.name, decrement);
    if c.Ok? && key.codec != String {
      MixSingleValue.DecimalReads(c.value.after, key.name, key.codec, c.value.reply);
      MixSingleValue.IncrByAdds(key.client.db, key.name, -decrement, key.codec);
    }
    r := key.client.Send(c);
    r := RaiseWhenWrongType(r);
  }

  /** `+=`: `incr`, then the key itself; on an absent counter `get` then
      reads the increment. */
  method IAdd(key: Key, increment: int) returns (r: Result<Key>)
    modifies key.client
    ensures r.Ok? <==> RaiseWhenWrongType(Reply(S.IncrBy(old(key.client.db), key.name, increment))).Ok?
    ensures r.Ok? ==> r.value == key && S.SameElsewhere(old(key.client.db), key.client.db, key.name)
    ensures r.Ok? && key.codec != String ==>
      MixSingleValue.Added(old(key.client.db), key.client.db, key.name, key.codec, increment)
    ensures r.Err? ==> r.error == TypeError && key.client.db == old(key.client.db)
    ensures key.name !in old(key.client.db).data && InInt64(increment) && key.codec != String ==>
      r.Ok? && MixString.Stored(key.client.db, key.name, key.codec) == Ok(PInt(increment))
  {
    var n := Incr(key, increment);
    if n.Err? {
      return Err(n.error);
    }
    r := Ok(key);
  }

  /** `-=`: `decr`, then the key itself. */
  method ISub(key: Key, decrement: int) returns (r: Result<Key>)
    modifies key.client
    ensures r.Ok? <==> RaiseWhenWrongType(Reply(S.DecrBy(old(key.client.db), key.name, decrement))).Ok?
    ensures r.Ok? ==> r.value == key && S.SameElsewhere(old(key.client.db), key.client.db, key.name)
    ensures r.Ok? && key.codec != String ==>
      MixSingleValue.Added(old(key.client.db), key.client.db, key.name, key.codec, -decrement)
    ensures r.Err? ==> r.error == TypeError && key.client.db == old(key.client.db)
    ensures key.name !in old(key.client.db).data && InInt64(decrement) && decrement != MinInt64 && key.codec != String ==>
      r.Ok? && MixString.Stored(key.client.db, key.name, key.codec) == Ok(PInt(-decrement))
  {
    var n := Decr(key, decrement);
    if n.Err? {
      return Err(n.error);
    }
    r := Ok(key);
  }
}
