/**
 * `Counter` of the second generation: a string key bound to the integer codec
 * whose value the server increments.
 */
module KeyCounter {
  import opened Python
  import opened Wire
  import opened Const
  import S = Store
  import opened RedisClient
  import opened Codec
  import opened KeyHelper
  import opened BaseKey
  import opened SetAndGetOpMixin

  /** `Counter(name, client)`: the integer codec unless another is given. */
  function NewCounter(name: string, client: Client, codec: Codec := Int): (k: Key)
    ensures k == New(name, client, codec)
  {
    Key(name, client, codec)
  }

  lemma DefaultCodecIsInt(name: string, client: Client)
    ensures NewCounter(name, client).codec == Int
  {
  }

  /** What the server's INCRBY reply means for the value read through the
      integer codec: the old value (0 when absent) plus the increment. */
  lemma IncrByReadsBack(st: S.Store, k: string, n: int)
    requires S.IncrBy(st, k, n).Ok?
    ensures var w := S.IncrBy(st, k, n).value;
      Stored(w.after, k, Int) == Ok(PInt(w.reply)) &&
      (k in st.data ==> HeldInt(st, k) && Stored(st, k, Int).value.i + n == w.reply)
  {
    var w := S.IncrBy(st, k, n).value;
    S.IncrByTexts(st, k, n);
    CountedTo(st, w.after, k, w.reply, n);
  }

  /** `TextsReadBack` for the texts of a counter moved from `x - n` to `x`. */
  lemma CountedTo(st: S.Store, after: S.Store, k: string, x: int, n: int)
    requires S.Get(after, k) == Ok(Some(IntToString(x)))
    requires k in st.data ==> S.Get(st, k) == Ok(Some(IntToString(x - n)))
    ensures Stored(after, k, Int) == Ok(PInt(x)) &&
      (k in st.data ==> HeldInt(st, k) && Stored(st, k, Int).value.i + n == x)
  {
    TextsReadBack(st, after, k, x, x - n);
  }

  /** The key reads as an integer through the integer codec. */
  predicate HeldInt(st: S.Store, k: string) {
    Stored(st, k, Int).Ok? && Stored(st, k, Int).value.PInt?
  }

  /** `st'` is `st` with the counter `k` moved on by `n`: the old number plus
      `n`, or `n` when the key was absent; every other key is as it was. */
  ghost predicate Added(st: S.Store, st': S.Store, k: string, n: int) {
    Moved(Stored(st, k, Int), Stored(st', k, Int), k in st.data, n) &&
    S.SameElsewhere(st, st', k)
  }

  /** The value read `now` is the integer read `before` plus `n`, or `n` when
      the key was not `present`. */
  predicate Moved(before: Result<PyValue>, now: Result<PyValue>, present: bool, n: int) {
    (present ==> before.Ok? && before.value.PInt? && now == Ok(PInt(before.value.i + n))) &&
    (!present ==> now == Ok(PInt(n)))
  }

  /** The decimal texts before and after an increment, read through the
      integer codec. */
  lemma TextsReadBack(st: S.Store, after: S.Store, k: string, x: int, y: int)
    requires S.Get(after, k) == Ok(Some(IntToString(x)))
    requires k in st.data ==> S.Get(st, k) == Ok(Some(IntToString(y)))
    ensures Stored(after, k, Int) == Ok(PInt(x))
    ensures k in st.data ==> Stored(st, k, Int) == Ok(PInt(y))
  {
    DecimalTextReads(after, k, x);
    if k in st.data {
      DecimalTextReads(st, k, y);
    }
  }

  /** What `incr` answers and leaves behind, for the server state `st`. */
  lemma IncrAnswer(st: S.Store, k: string, n: int)
    ensures var r := RaiseWhenWrongType(Reply(S.IncrBy(st, k, n)));
      var after := After(st, S.IncrBy(st, k, n));
      (r.Err? ==> r.error == TypeError && after == st) &&
      (k !in st.data && InInt64(n) ==> r == Ok(n)) &&
      (r.Ok? ==> Stored(after, k, Int) == Ok(PInt(r.value))) &&
      (r.Ok? && k in st.data ==> HeldInt(st, k) && Stored(st, k, Int).value.i + n == r.value) &&
      (r.Ok? ==> S.SameElsewhere(st, after, k))
  {
    var c := S.IncrBy(st, k, n);
    if c.Ok? {
      IncrByReadsBack(st, k, n);
      assert RaiseWhenWrongType(Reply(c)) == Ok(c.value.reply);
      assert After(st, c) == c.value.after;
    } else {
      assert RaiseWhenWrongType(Reply(c)) == Err(TypeError);
    }
  }

  /** `IncrAnswer` for a reply already computed. */
  lemma AnswerOf(st: S.Store, k: string, m: int, c: Result<S.Written<int>>)
    requires c == S.IncrBy(st, k, m)
    ensures var r := RaiseWhenWrongType(Reply(c));
      var after := After(st, c);
      (r.Err? ==> r.error == TypeError && after == st) &&
      (k !in st.data && InInt64(m) ==> r == Ok(m)) &&
      (r.Ok? ==> Stored(after, k, Int) == Ok(PInt(r.value))) &&
      (r.Ok? && k in st.data ==> HeldInt(st, k) && Stored(st, k, Int).value.i + m == r.value) &&
      (r.Ok? ==> S.SameElsewhere(st, after, k))
  {
    IncrAnswer(st, k, m);
  }

  /** What `decr` answers and leaves behind, for the server state `st`. */
  lemma DecrAnswer(st: S.Store, k: string, n: int)
    ensures var r := RaiseWhenWrongType(Reply(S.DecrBy(st, k, n)));
      var after := After(st, S.DecrBy(st, k, n));
      (r.Err? ==> r.error == TypeError && after == st) &&
      (k !in st.data && InInt64(n) && n != MinInt64 ==> r == Ok(-n)) &&
      (r.Ok? ==> Stored(after, k, Int) == Ok(PInt(r.value))) &&
      (r.Ok? && k in st.data ==> HeldInt(st, k) && Stored(st, k, Int).value.i - n == r.value) &&
      (r.Ok? ==> S.SameElsewhere(st, after, k))
  {
    if InInt64(n) {
      AnswerOf(st, k, -n, S.DecrBy(st, k, n));
      if k !in st.data && n != MinInt64 {
        assert InInt64(-n);
      }
    } else {
      assert RaiseWhenWrongType(Reply(S.DecrBy(st, k, n))) == Err(TypeError);
    }
  }

  /** After an `incr` that succeeds, the counter holds its old value plus `n`. */
  lemma IncrAdds(st: S.Store, k: string, n: int)
    requires RaiseWhenWrongType(Reply(S.IncrBy(st, k, n))).Ok?
    ensures Added(st, After(st, S.IncrBy(st, k, n)), k, n)
  {
    var c := S.IncrBy(st, k, n);
    AnswerOf(st, k, n, c);
    assert c.Ok? && RaiseWhenWrongType(Reply(c)).value == c.value.reply;
    AddedFrom(st, After(st, c), k, c.value.reply, n);
  }

  /** The facts `Added` gathers, one by one. */
  lemma AddedFrom(st: S.Store, after: S.Store, k: string, x: int, n: int)
    requires Stored(after, k, Int) == Ok(PInt(x))
    requires k in st.data ==> HeldInt(st, k) && Stored(st, k, Int).value.i + n == x
    requires k !in st.data ==> x == n
    requires S.SameElsewhere(st, after, k)
    ensures Added(st, after, k, n)
  {
    MovedFrom(Stored(st, k, Int), Stored(after, k, Int), k in st.data, x, n);
  }

  lemma MovedFrom(before: Result<PyValue>, now: Result<PyValue>, present: bool, x: int, n: int)
    requires now == Ok(PInt(x))
    requires present ==> before.Ok? && before.value.PInt? && before.value.i + n == x
    requires !present ==> x == n
    ensures Moved(before, now, present, n)
  {
  }

  /** After a `decr` that succeeds, the counter holds its old value minus `n`. */
  lemma DecrAdds(st: S.Store, k: string, n: int)
    requires RaiseWhenWrongType(Reply(S.DecrBy(st, k, n))).Ok?
    ensures Added(st, After(st, S.DecrBy(st, k, n)), k, -n)
  {
    DecrAnswer(st, k, n);
    var r := RaiseWhenWrongType(Reply(S.DecrBy(st, k, n)));
    var after := After(st, S.DecrBy(st, k, n));
    if k in st.data {
      assert Stored(st, k, Int).value.i + -n == r.value;
    } else {
      assert InInt64(n) && S.DecrBy(st, k, n) == S.IncrBy(st, k, -n);
      assert r.value == -n;
    }
  }

  /** `incr`: the counter after adding `increment`; any server error is `TypeError`. */
  method Incr(key: Key, increment: int := DefaultIncrement) returns (r: Result<int>)
    modifies key.client
    ensures r == RaiseWhenWrongType(Reply(S.IncrBy(old(key.client.db), key.name, increment)))
    ensures r.Err? ==> r.error == TypeError && key.client.db == old(key.client.db)
    ensures key.name !in old(key.client.db).data && InInt64(increment) ==> r == Ok(increment)
    ensures r.Ok? ==> Stored(key.client.db, key.name, Int) == Ok(PInt(r.value))
    ensures r.Ok? && key.name in old(key.client.db).data ==>
      HeldInt(old(key.client.db), key.name) && Stored(old(key.client.db), key.name, Int).value.i + increment == r.value
    ensures r.Ok? ==> Added(old(key.client.db), key.client.db, key.name, increment)
  {
    IncrAnswer(key.client.db, key.name, increment);
    if RaiseWhenWrongType(Reply(S.IncrBy(key.client.db, key.name, increment))).Ok? {
      IncrAdds(key.client.db, key.name, increment);
    }
    r := key.client.Send(S.IncrBy(key.client.db, key.name, increment));
    r := RaiseWhenWrongType(r);
  }

  /** `decr`: the counter after subtracting `decrement`. */
  method Decr(key: Key, decrement: int := DefaultDecrement) returns (r: Result<int>)
    modifies key.client
    ensures r == RaiseWhenWrongType(Reply(S.DecrBy(old(key.client.db), key.name, decrement)))
    ensures r.Err? ==> r.error == TypeError && key.client.db == old(key.client.db)
    ensures key.name !in old(key.client.db).data && InInt64(decrement) && decrement != MinInt64 ==> r == Ok(-decrement)
    ensures r.Ok? ==> Stored(key.client.db, key.name, Int) == Ok(PInt(r.value))
    ensures r.Ok? && key.name in old(key.client.db).data ==>
      HeldInt(old(key.client.db), key.name) && Stored(old(key.client.db), key.name, Int).value.i - decrement == r.value
    ensures r.Ok? ==> Added(old(key.client.db), key.client.db, key.name, -decrement)
  {
    DecrAnswer(key.client.db, key.name, decrement);
    if RaiseWhenWrongType(Reply(S.DecrBy(key.client.db, key.name, decrement))).Ok? {
      DecrAdds(key.client.db, key.name, decrement);
    }
    r := key.client.Send(S.DecrBy(key.client.db, key.name, decrement));
    r := RaiseWhenWrongType(r);
  }

  /** `+=`: `incr`, then the key itself. */
  method IAdd(key: Key, increment: int) returns (r: Result<Key>)
    modifies key.client
    ensures r.Ok? <==> RaiseWhenWrongType(Reply(S.IncrBy(old(key.client.db), key.name, increment))).Ok?
    ensures r.Ok? ==> r.value == key && Added(old(key.client.db), key.client.db, key.name, increment)
    ensures r.Err? ==> r.error == TypeError && key.client.db == old(key.client.db)
  {
    var n := Incr(key, increment);
    if n.Err? {
      return Err(n.error);
    }
    r := Ok(key);
  }

  /** `-=`: `decr`, then the key itself. */
  method ISub(key: Key, decrement: int) returns (r: Result<Key>)
    modifies key.client
    ensures r.Ok? <==> RaiseWhenWrongType(Reply(S.DecrBy(old(key.client.db), key.name, decrement))).Ok?
    ensures r.Ok? ==> r.value == key && Added(old(key.client.db), key.client.db, key.name, -decrement)
    ensures r.Err? ==> r.error == TypeError && key.client.db == old(key.client.db)
  {
    var n := Decr(key, decrement);
    if n.Err? {
      return Err(n.error);
    }
    r := Ok(key);
  }
}
