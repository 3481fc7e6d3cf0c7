/**
 * The Redis server the keys talk to, as a value: every key name maps to a
 * string, a list, a set, a sorted set or a hash, and a key may carry an expiry
 * deadline. The clock is a fixed number `now`; nothing expires while a model
 * operation runs. A command that the server rejects returns an error and
 * leaves the store as it was; a command that succeeds returns its reply and
 * the new store.
 */
module Store {
  import opened Python
  import opened Wire
  import opened Const
  import opened ZOrder

  datatype Value =
    | Text(s: string)
    | List(items: seq<string>)
    | SetOf(members: set<string>)
    | ZSet(entries: seq<Entry>)
    | Hash(fields: map<string, string>)

  datatype Store = Store(data: map<string, Value>, expiry: map<string, int>, now: int)

  /** What a write command answers, and the store after it. */
  datatype Written<+T> = Written(reply: T, after: Store)

  const WrongTypeError: Error := ResponseError(WrongType)

  /** A collection with nothing in it; Redis never keeps one. */
  predicate Empty(v: Value) {
    match v
    case Text(_) => false
    case List(items) => items == []
    case SetOf(members) => members == {}
    case ZSet(entries) => entries == []
    case Hash(fields) => fields == map[]
  }

  predicate Shaped(v: Value) { v.ZSet? ==> Ranked(v.entries) }

  /** The invariant of the server: no empty collection is stored, sorted sets
      are well-formed listings, and only present keys carry a deadline, which
      lies in the future. */
  predicate Valid(st: Store) {
    (forall k :: k in st.data ==> Shaped(st.data[k]) && !Empty(st.data[k])) &&
    (forall k :: k in st.expiry ==> k in st.data && st.expiry[k] > st.now)
  }

  function RepOf(st: Store, k: string): (t: Representation)
    ensures t == Absent <==> k !in st.data
  {
    if k !in st.data then Absent
    else match st.data[k]
      case Text(_) => StringRep
      case List(_) => ListRep
      case SetOf(_) => SetRep
      case ZSet(_) => SortedSetRep
      case Hash(_) => HashRep
  }

  /** Every key except `k` is as it was, with the same deadline. */
  ghost predicate SameElsewhere(st: Store, st': Store, k: string) {
    st'.now == st.now &&
    (forall j :: j != k ==> (j in st'.data <==> j in st.data)) &&
    (forall j :: j != k && j in st.data ==> st'.data[j] == st.data[j]) &&
    (forall j :: j != k ==> (j in st'.expiry <==> j in st.expiry)) &&
    (forall j :: j != k && j in st.expiry ==> st'.expiry[j] == st.expiry[j])
  }

  /** Every key except `k` and `k2` is as it was, with the same deadline. */
  ghost predicate SameElsewhere2(st: Store, st': Store, k: string, k2: string) {
    st'.now == st.now &&
    (forall j :: j != k && j != k2 ==> (j in st'.data <==> j in st.data)) &&
    (forall j :: j != k && j != k2 && j in st.data ==> st'.data[j] == st.data[j]) &&
    (forall j :: j != k && j != k2 ==> (j in st'.expiry <==> j in st.expiry)) &&
    (forall j :: j != k && j != k2 && j in st.expiry ==> st'.expiry[j] == st.expiry[j])
  }

  /** A change at `k` is a change at `k` and `k2`. */
  lemma FrameWidens(st: Store, st': Store, k: string, k2: string)
    requires SameElsewhere(st, st', k)
    ensures SameElsewhere2(st, st', k, k2)
  {
  }

  /** A change at `k` followed by a change at `k2` changes nothing else. */
  lemma FramesCompose(st: Store, st1: Store, st2: Store, k: string, k2: string)
    requires SameElsewhere(st, st1, k) && SameElsewhere(st1, st2, k2)
    ensures SameElsewhere2(st, st2, k, k2)
  {
  }

  function Delete(st: Store, k: string): (r: Store)
    ensures k !in r.data && k !in r.expiry
    ensures SameElsewhere(st, r, k)
    ensures Valid(st) ==> Valid(r)
  {
    Store(st.data - {k}, st.expiry - {k}, st.now)
  }

  /** A write that keeps the key's deadline; emptying a collection removes the key. */
  function Put(st: Store, k: string, v: Value): (r: Store)
    requires Shaped(v)
    ensures Empty(v) ==> r == Delete(st, k)
    ensures !Empty(v) ==> r.data == st.data[k := v] && r.expiry == st.expiry
    ensures SameElsewhere(st, r, k)
    ensures Valid(st) ==> Valid(r)
  {
    if Empty(v) then Delete(st, k) else st.(data := st.data[k := v])
  }

  /** A write that replaces the key outright, dropping its deadline (SET and the
      `*STORE` commands). */
  function Overwrite(st: Store, k: string, v: Value): (r: Store)
    requires Shaped(v)
    ensures Empty(v) ==> r == Delete(st, k)
    ensures !Empty(v) ==> r.data == st.data[k := v] && k !in r.expiry
    ensures SameElsewhere(st, r, k)
    ensures Valid(st) ==> Valid(r)
  {
    if Empty(v) then Delete(st, k) else Store(st.data[k := v], st.expiry - {k}, st.now)
  }

  // ---------------------------------------------------------------- keys

  /** TYPE: the representation tag, `none` for an absent key. */
  function Type(st: Store, k: string): (tag: string)
    ensures tag == "none" <==> k !in st.data
    ensures FromTag(tag) == Some(RepOf(st, k))
  {
    RedisType(RepOf(st, k))
  }

  function Exists(st: Store, k: string): bool { k in st.data }

  /** TTL as the client reports it: the seconds left, or `None` when the key
      is absent or has no deadline. */
  function Ttl(st: Store, k: string): (r: Option<int>)
    ensures r.Some? <==> k in st.expiry
  {
    if k in st.expiry then Some(st.expiry[k] - st.now) else None
  }

  /** On a valid server a reported time to live is positive and belongs to a
      present key. */
  lemma TtlPositive(st: Store, k: string)
    requires Valid(st) && Ttl(st, k).Some?
    ensures Ttl(st, k).value > 0 && k in st.data
  {
  }

  /** DEL of one key: the number of keys removed. */
  function Del(st: Store, k: string): (r: Written<nat>)
    ensures r.reply == if k in st.data then 1 else 0
    ensures r.after == Delete(st, k)
  {
    Written(if k in st.data then 1 else 0, Delete(st, k))
  }

  /** EXPIRE: a deadline `secs` from now; a deadline not in the future
      removes the key at once. */
  function Expire(st: Store, k: string, secs: int): (r: Written<bool>)
    ensures r.reply <==> k in st.data
    ensures !r.reply ==> r.after == st
    ensures r.reply && secs > 0 ==> r.after.data == st.data && Ttl(r.after, k) == Some(secs)
    ensures r.reply && secs <= 0 ==> !Exists(r.after, k)
    ensures SameElsewhere(st, r.after, k)
    ensures Valid(st) ==> Valid(r.after)
  {
    if k !in st.data then Written(false, st)
    else if secs <= 0 then Written(true, Delete(st, k))
    else Written(true, st.(expiry := st.expiry[k := st.now + secs]))
  }

  /** EXPIREAT: a deadline at the absolute time `when`. */
  function ExpireAt(st: Store, k: string, when: int): (r: Written<bool>)
    ensures r.reply <==> k in st.data
    ensures !r.reply ==> r.after == st
    ensures r.reply && when > st.now ==> r.after.data == st.data && Ttl(r.after, k) == Some(when - st.now)
    ensures r.reply && when <= st.now ==> !Exists(r.after, k)
    ensures SameElsewhere(st, r.after, k)
    ensures Valid(st) ==> Valid(r.after)
  {
    if k !in st.data then Written(false, st)
    else if when <= st.now then Written(true, Delete(st, k))
    else Written(true, st.(expiry := st.expiry[k := when]))
  }

  /** PERSIST: drop the deadline; the reply says whether there was one. */
  function Persist(st: Store, k: string): (r: Written<bool>)
    ensures r.reply <==> k in st.expiry
    ensures r.after.data == st.data && Ttl(r.after, k) == None
    ensures SameElsewhere(st, r.after, k)
    ensures Valid(st) ==> Valid(r.after)
  {
    Written(k in st.expiry, st.(expiry := st.expiry - {k}))
  }

  // ------------------------------------------------------------- strings

  /** GET: the stored string, `None` for an absent key. */
  function Get(st: Store, k: string): (r: Result<Option<string>>)
    ensures r.Err? <==> k in st.data && !st.data[k].Text?
    ensures r.Err? ==> r.error == WrongTypeError
    ensures r == Ok(None) <==> k !in st.data
    ensures r.Ok? && r.value.Some? ==> st.data[k] == Text(r.value.value)
  {
    if k !in st.data then Ok(None)
    else match st.data[k]
      case Text(s) => Ok(Some(s))
      case _ => Err(WrongTypeError)
  }

  /** SET: never fails, whatever the key held; the deadline is dropped. */
  function Set(st: Store, k: string, s: string): (r: Store)
    ensures Get(r, k) == Ok(Some(s)) && Ttl(r, k) == None
    ensures SameElsewhere(st, r, k)
    ensures Valid(st) ==> Valid(r)
  {
    Overwrite(st, k, Text(s))
  }

  /** SETNX: writes only when the key is absent. */
  function SetNx(st: Store, k: string, s: string): (r: Written<bool>)
    ensures r.reply <==> k !in st.data
    ensures r.after == if r.reply then Set(st, k, s) else st
  {
    if k in st.data then Written(false, st) else Written(true, Set(st, k, s))
  }

  /** SETEX: the value together with a deadline `secs` from now. */
  function SetEx(st: Store, k: string, secs: int, s: string): (r: Result<Store>)
    ensures r.Err? <==> secs <= 0
    ensures r.Err? ==> r.error == ResponseError(InvalidExpireTime)
    ensures r.Ok? ==> Get(r.value, k) == Ok(Some(s)) && Ttl(r.value, k) == Some(secs)
    ensures r.Ok? ==> SameElsewhere(st, r.value, k)
    ensures r.Ok? && Valid(st) ==> Valid(r.value)
  {
    if secs <= 0 then Err(ResponseError(InvalidExpireTime))
    else Ok(Store(st.data[k := Text(s)], st.expiry[k := st.now + secs], st.now))
  }

  /** GETSET: the old string (or `None`) out, the new one in. */
  function GetSet(st: Store, k: string, s: string): (r: Result<Written<Option<string>>>)
    ensures r.Err? <==> Get(st, k).Err?
    ensures r.Err? ==> r.error == WrongTypeError
    ensures r.Ok? ==> r.value.reply == Get(st, k).value && r.value.after == Set(st, k, s)
  {
    var previous :- Get(st, k);
    Ok(Written(previous, Set(st, k, s)))
  }

  /** The integer INCRBY starts from: the stored text read as a 64-bit
      decimal, 0 for an absent key. */
  function TextInt(previous: Option<string>): (r: Result<int>)
    ensures previous.None? ==> r == Ok(0)
    ensures previous.Some? ==> (r.Ok? <==> RedisInt(previous.value).Some?)
    ensures previous.Some? && r.Ok? ==> IntToString(r.value) == previous.value
    ensures r.Ok? ==> InInt64(r.value)
    ensures r.Err? ==> r.error == ResponseError(NotAnInteger)
  {
    match previous
    case None => Ok(0)
    case Some(s) => if RedisInt(s).Some? then Ok(RedisInt(s).value) else Err(ResponseError(NotAnInteger))
  }

  /** Writing a text with the deadline kept: the key reads as that text. */
  lemma PutText(st: Store, k: string, t: string)
    ensures Get(Put(st, k, Text(t)), k) == Ok(Some(t))
    ensures Ttl(Put(st, k, Text(t)), k) == Ttl(st, k)
  {
  }

  /** INCRBY: the stored decimal integer plus `n` (an absent key counts as 0),
      written back in decimal; the deadline is kept. */
  function IncrBy(st: Store, k: string, n: int): (r: Result<Written<int>>)
    ensures Get(st, k).Err? ==> r == Err(WrongTypeError)
    ensures r.Ok? ==> Get(st, k).Ok? && InInt64(r.value.reply)
    ensures r.Ok? && k !in st.data ==> r.value.reply == n
    ensures k in st.data && st.data[k].Text? && RedisInt(st.data[k].s).None? ==> r == Err(ResponseError(NotAnInteger))
    ensures r.Ok? ==> Get(r.value.after, k) == Ok(Some(IntToString(r.value.reply)))
    ensures r.Ok? ==> Ttl(r.value.after, k) == Ttl(st, k) && SameElsewhere(st, r.value.after, k)
    ensures r.Ok? && Valid(st) ==> Valid(r.value.after)
    ensures k !in st.data && InInt64(n) ==> r.Ok? && r.value.reply == n
    ensures r.Err? ==> r.error.ResponseError?
  {
    var previous :- Get(st, k);
    if !InInt64(n) then Err(ResponseError(NotAnInteger))
    else
      var base :- TextInt(previous);
      var sum := base + n;
      if !InInt64(sum) then Err(ResponseError(Overflow))
      else
        PutText(st, k, IntToString(sum));
        Ok(Written(sum, Put(st, k, Text(IntToString(sum)))))
  }

  /** The texts INCRBY reads and writes: the old value and the reply, in decimal. */
  lemma IncrByTexts(st: Store, k: string, n: int)
    requires IncrBy(st, k, n).Ok?
    ensures var w := IncrBy(st, k, n).value;
      Get(w.after, k) == Ok(Some(IntToString(w.reply))) &&
      (k in st.data ==> Get(st, k) == Ok(Some(IntToString(w.reply - n))))
  {
    var w := IncrBy(st, k, n).value;
    var base := TextInt(Get(st, k).value).value;
    assert w.reply == base + n;
  }

  /** DECRBY: INCRBY by the negated amount. */
  function DecrBy(st: Store, k: string, n: int): (r: Result<Written<int>>)
    ensures InInt64(n) ==> r == IncrBy(st, k, -n)
    ensures k !in st.data && InInt64(n) && n != MinInt64 ==> r.Ok? && r.value.reply == -n
  {
    if !InInt64(n) then Err(ResponseError(NotAnInteger)) else IncrBy(st, k, -n)
  }
}
