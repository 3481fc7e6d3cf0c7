/**
 * The hash commands of the server: a key holds a map from field names to
 * strings.
 */
module HashCommands {
  import opened Python
  import opened Wire
  import opened Store

  function HashAt(st: Store, k: string): (r: Result<map<string, string>>)
    ensures r.Err? <==> k in st.data && !st.data[k].Hash?
    ensures r.Err? ==> r.error == WrongTypeError
    ensures r.Ok? && k in st.data ==> r.value == st.data[k].fields
    ensures k !in st.data ==> r == Ok(map[])
  {
    if k !in st.data then Ok(map[])
    else match st.data[k]
      case Hash(fs) => Ok(fs)
      case _ => Err(WrongTypeError)
  }

  /** The fields, none when the key is absent or holds something else. */
  function FieldsOf(st: Store, k: string): map<string, string> {
    if HashAt(st, k).Ok? then HashAt(st, k).value else map[]
  }

  /** HSET of one field: the reply says whether the field is new. */
  function HSet(st: Store, k: string, f: string, v: string): (r: Result<Written<bool>>)
    ensures r.Err? <==> HashAt(st, k).Err?
    ensures r.Ok? ==> (r.value.reply <==> f !in FieldsOf(st, k))
    ensures r.Ok? ==> FieldsOf(r.value.after, k) == FieldsOf(st, k)[f := v]
    ensures r.Ok? ==> SameElsewhere(st, r.value.after, k) && Ttl(r.value.after, k) == Ttl(st, k)
    ensures r.Ok? && Valid(st) ==> Valid(r.value.after)
  {
    var fs :- HashAt(st, k);
    assert f in fs[f := v];
    Ok(Written(f !in fs, Put(st, k, Hash(fs[f := v]))))
  }

  function HGet(st: Store, k: string, f: string): (r: Result<Option<string>>)
    ensures r.Err? <==> HashAt(st, k).Err?
    ensures r.Ok? ==> (r.value.Some? <==> f in FieldsOf(st, k))
    ensures r.Ok? && r.value.Some? ==> FieldsOf(st, k)[f] == r.value.value
  {
    var fs :- HashAt(st, k);
    if f in fs then Ok(Some(fs[f])) else Ok(None)
  }

  /** HDEL of one field: the number removed; the key goes with its last field. */
  function HDel(st: Store, k: string, f: string): (r: Result<Written<nat>>)
    ensures r.Err? <==> HashAt(st, k).Err?
    ensures r.Ok? ==> r.value.reply == if f in FieldsOf(st, k) then 1 else 0
    ensures r.Ok? ==> FieldsOf(r.value.after, k) == FieldsOf(st, k) - {f}
    ensures r.Ok? ==> SameElsewhere(st, r.value.after, k)
    ensures r.Ok? && Valid(st) ==> Valid(r.value.after)
  {
    var fs :- HashAt(st, k);
    Ok(Written(if f in fs then 1 else 0, Put(st, k, Hash(fs - {f}))))
  }

  function HExists(st: Store, k: string, f: string): (r: Result<bool>)
    ensures r.Err? <==> HashAt(st, k).Err?
    ensures r.Ok? ==> (r.value <==> f in FieldsOf(st, k))
  {
    var fs :- HashAt(st, k);
    Ok(f in fs)
  }

  function HKeys(st: Store, k: string): (r: Result<set<string>>)
    ensures r.Err? <==> HashAt(st, k).Err?
    ensures r.Ok? ==> forall f :: f in r.value <==> f in FieldsOf(st, k)
  {
    var fs :- HashAt(st, k);
    Ok(fs.Keys)
  }

  function HLen(st: Store, k: string): (r: Result<nat>)
    ensures r.Err? <==> HashAt(st, k).Err?
    ensures r.Ok? ==> r.value == |FieldsOf(st, k).Keys|
  {
    var fs :- HashAt(st, k);
    Ok(|fs.Keys|)
  }

  /** The integer a field holds for HINCRBY, 0 for an absent field. */
  function FieldInt(fs: map<string, string>, f: string): (r: Result<int>)
    ensures f !in fs ==> r == Ok(0)
    ensures f in fs ==> (r.Ok? <==> RedisInt(fs[f]).Some?)
    ensures f in fs && r.Ok? ==> RedisInt(fs[f]) == Some(r.value)
    ensures r.Err? ==> r.error == ResponseError(NotAnInteger)
  {
    if f !in fs then Ok(0)
    else if RedisInt(fs[f]).Some? then Ok(RedisInt(fs[f]).value)
    else Err(ResponseError(NotAnInteger))
  }

  /** HINCRBY: the field's decimal integer plus `n`, an absent field counting
      as 0; a field that is not a 64-bit integer and a sum out of range are
      errors. */
  function HIncrBy(st: Store, k: string, f: string, n: int): (r: Result<Written<int>>)
    ensures HashAt(st, k).Err? ==> r == Err(WrongTypeError)
    ensures r.Ok? ==> HashAt(st, k).Ok? && InInt64(r.value.reply)
    ensures r.Ok? <==> (HashAt(st, k).Ok? && InInt64(n) && FieldInt(FieldsOf(st, k), f).Ok? &&
      InInt64(FieldInt(FieldsOf(st, k), f).value + n))
    ensures r.Ok? && f in FieldsOf(st, k) ==>
      RedisInt(FieldsOf(st, k)[f]).Some? && RedisInt(FieldsOf(st, k)[f]).value + n == r.value.reply
    ensures r.Ok? && f !in FieldsOf(st, k) ==> r.value.reply == n
    ensures HashAt(st, k).Ok? && f in FieldsOf(st, k) && RedisInt(FieldsOf(st, k)[f]).None? ==>
      r == Err(ResponseError(NotAnInteger))
    ensures r.Ok? ==> FieldsOf(r.value.after, k) == FieldsOf(st, k)[f := IntToString(r.value.reply)]
    ensures r.Ok? ==> SameElsewhere(st, r.value.after, k) && Ttl(r.value.after, k) == Ttl(st, k)
    ensures r.Ok? && Valid(st) ==> Valid(r.value.after)
  {
    var fs :- HashAt(st, k);
    if !InInt64(n) then Err(ResponseError(NotAnInteger))
    else
      var base :- FieldInt(fs, f);
      var sum := base + n;
      if !InInt64(sum) then Err(ResponseError(Overflow))
      else
        var fs' := fs[f := IntToString(sum)];
        PutFields(st, k, fs', f);
        Ok(Written(sum, Put(st, k, Hash(fs'))))
  }

  /** A key given a non-empty hash holds exactly those fields, with its
      deadline kept. */
  lemma PutFields(st: Store, k: string, fs: map<string, string>, f: string)
    requires f in fs
    ensures FieldsOf(Put(st, k, Hash(fs)), k) == fs
    ensures Ttl(Put(st, k, Hash(fs)), k) == Ttl(st, k)
  {
    var after := Put(st, k, Hash(fs));
    assert after.expiry == st.expiry && after.data[k] == Hash(fs);
  }

  /** Writing a field and reading it back gives the value written. */
  lemma HSetThenHGet(st: Store, k: string, f: string, v: string)
    requires HashAt(st, k).Ok?
    ensures HSet(st, k, f, v).Ok? && HGet(HSet(st, k, f, v).value.after, k, f) == Ok(Some(v))
  {
  }

  /** Incrementing from an absent field gives the increment, written as its
      decimal text, which reads back as that integer. */
  lemma HIncrByFromNothing(st: Store, k: string, f: string, n: int)
    requires HashAt(st, k).Ok? && f !in FieldsOf(st, k) && InInt64(n)
    ensures var r := HIncrBy(st, k, f, n);
      r.Ok? && r.value.reply == n && RedisInt(FieldsOf(r.value.after, k)[f]) == Some(n)
  {
    RedisIntRoundTrip(n);
  }
}
