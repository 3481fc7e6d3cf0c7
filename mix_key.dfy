/**
 * The key of the first generation (the `mix` package): a name, the connection
 * and a codec of the first codec generation. Equality, the type tag, the time
 * to live, existence, deleting and the deadline operations; the deadline
 * operations refuse an absent key.
 */
module MixKey {
  import opened Python
  import opened Const
  import S = Store
  import opened RedisClient
  import opened Codec

  datatype Key = Key(name: string, client: Client, codec: Codec)

  /** `Key(name, client, type_case)`, the codec being Generic unless given. */
  function New(name: string, client: Client, codec: Codec := Generic): (k: Key)
    ensures k.name == name && k.client == client && k.codec == codec
  {
    Key(name, client, codec)
  }

  /** `__eq__`: keys are equal when their names are. */
  predicate Equal(a: Key, b: Key) { a.name == b.name }

  lemma EqualIffSameName(n: string, m: string, c: Client, d: Client, x: Codec, y: Codec)
    ensures Equal(New(n, c, x), New(m, d, y)) <==> n == m
  {
  }

  lemma DefaultCodecIsGeneric(name: string, client: Client)
    ensures New(name, client).codec == Generic
  {
  }

  /** `_represent`: the type tag of the key, `none` when it is absent. */
  method Represent(key: Key) returns (tag: string)
    ensures tag == "none" <==> key.name !in key.client.db.data
    ensures FromTag(tag) == Some(S.RepOf(key.client.db, key.name))
  {
    tag := S.Type(key.client.db, key.name);
  }

  /** `ttl`: the seconds left, `None` for an absent key or one without deadline. */
  method Ttl(key: Key) returns (t: Option<int>)
    requires S.Valid(key.client.db)
    ensures t.Some? <==> key.name in key.client.db.expiry
    ensures t.Some? ==> t.value > 0 && key.name in key.client.db.data
    ensures t.Some? ==> t.value == key.client.db.expiry[key.name] - key.client.db.now
  {
    t := S.Ttl(key.client.db, key.name);
    if t.Some? {
      S.TtlPositive(key.client.db, key.name);
    }
  }

  method Exists(key: Key) returns (b: bool)
    ensures b <==> key.name in key.client.db.data
  {
    b := S.Exists(key.client.db, key.name);
  }

  /** `delete`: sends DEL only when the key exists; either way it is gone after. */
  method Delete(key: Key)
    modifies key.client
    ensures key.name !in old(key.client.db).data ==> key.client.db == old(key.client.db)
    ensures key.name in old(key.client.db).data ==> key.client.db == S.Delete(old(key.client.db), key.name)
    ensures key.name !in key.client.db.data
    ensures S.Valid(old(key.client.db)) ==> S.Ttl(key.client.db, key.name) == None
    ensures S.SameElsewhere(old(key.client.db), key.client.db, key.name)
  {
    var present := Exists(key);
    if present {
      var _ := key.client.Send(Ok(S.Del(key.client.db, key.name)));
    }
  }

  /** `expire`: `TypeError` for an absent key, otherwise a deadline `second` from now. */
  method Expire(key: Key, second: int) returns (r: Result<()>)
    modifies key.client
    ensures r.Err? <==> key.name !in old(key.client.db).data
    ensures r.Err? ==> r.error == TypeError && key.client.db == old(key.client.db)
    ensures r.Ok? ==> key.client.db == S.Expire(old(key.client.db), key.name, second).after
    ensures r.Ok? && second > 0 ==> S.Ttl(key.client.db, key.name) == Some(second)
    ensures r.Ok? && S.Valid(old(key.client.db)) ==> S.Valid(key.client.db)
  {
    var present := Exists(key);
    if !present {
      return Err(TypeError);
    }
    var _ := key.client.Send(Ok(S.Expire(key.client.db, key.name, second)));
    r := Ok(());
  }

  /** `expireat`: `TypeError` for an absent key, otherwise a deadline at `when`. */
  method ExpireAt(key: Key, when: int) returns (r: Result<()>)
    modifies key.client
    ensures r.Err? <==> key.name !in old(key.client.db).data
    ensures r.Err? ==> r.error == TypeError && key.client.db == old(key.client.db)
    ensures r.Ok? ==> key.client.db == S.ExpireAt(old(key.client.db), key.name, when).after
    ensures r.Ok? && when > old(key.client.db).now ==>
      S.Ttl(key.client.db, key.name) == Some(when - old(key.client.db).now)
    ensures r.Ok? && S.Valid(old(key.client.db)) ==> S.Valid(key.client.db)
  {
    var present := Exists(key);
    if !present {
      return Err(TypeError);
    }
    var _ := key.client.Send(Ok(S.ExpireAt(key.client.db, key.name, when)));
    r := Ok(());
  }

  /** `persist`: `TypeError` for an absent key; a key without deadline is left
      alone (no command is sent); otherwise the deadline is dropped. */
  method Persist(key: Key) returns (r: Result<()>)
    requires S.Valid(key.client.db)
    modifies key.client
    ensures r.Err? <==> key.name !in old(key.client.db).data
    ensures r.Err? ==> r.error == TypeError
    ensures key.name !in old(key.client.db).expiry ==> key.client.db == old(key.client.db)
    ensures r.Ok? ==> key.client.db.data == old(key.client.db).data && S.Ttl(key.client.db, key.name) == None
    ensures S.SameElsewhere(old(key.client.db), key.client.db, key.name)
    ensures S.Valid(key.client.db)
  {
    var present := Exists(key);
    if !present {
      return Err(TypeError);
    }
    var t := Ttl(key);
    if t.None? {
      return Ok(());
    }
    var _ := key.client.Send(Ok(S.Persist(key.client.db, key.name)));
    r := Ok(());
  }
}
