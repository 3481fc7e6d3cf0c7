/**
 * `List` of the first generation: a Python-sequence view of a server list.
 * Reading by index goes through LINDEX after a length check, reading by slice
 * slices the whole list on the client, writing by index is LSET, deleting by
 * slice is one LTRIM, and the pushes and pops are the server's. Elements go
 * through `to_redis` / `to_python`; a server error becomes `TypeError`.
 */
module MixList {
  import opened Python
  import opened Wire
  import opened Const
  import S = Store
  import opened ListCommands
  import opened RedisClient
  import opened Codec
  import opened KeyHelper
  import opened MixKey
  import MixHelper

  /** `__len__`: the number of elements, 0 for an absent key. */
  method Len(key: Key) returns (r: Result<nat>)
    ensures r.Err? <==> ListAt(key.client.db, key.name).Err?
    ensures r.Err? ==> r.error == TypeError
    ensures r.Ok? ==> r.value == |ItemsOf(key.client.db, key.name)|
    ensures key.name !in key.client.db.data ==> r == Ok(0)
  {
    r := RaiseWhenWrongType(LLen(key.client.db, key.name));
  }

  /** `l[i]`: an index at or past the length is `IndexError` (so is any
      non-negative index of an absent key); an index too far below zero
      reaches LINDEX, whose empty answer reads as `None`. */
  method GetAt(key: Key, i: int) returns (r: Result<PyValue>)
    ensures ListAt(key.client.db, key.name).Err? ==> r == Err(TypeError)
    ensures ListAt(key.client.db, key.name).Ok? && i >= |ItemsOf(key.client.db, key.name)| ==>
      r == Err(IndexError)
    ensures ListAt(key.client.db, key.name).Ok? && Index(ItemsOf(key.client.db, key.name), i).Ok? ==>
      r == Read(Mix, key.codec, PStr(Index(ItemsOf(key.client.db, key.name), i).value))
    ensures ListAt(key.client.db, key.name).Ok? && i < -|ItemsOf(key.client.db, key.name)| ==>
      r == Ok(PNone)
  {
    var n := Len(key);
    if n.Err? {
      return Err(n.error);
    }
    if i >= n.value {
      return Err(IndexError);
    }
    var w := LIndex(key.client.db, key.name, i).value;
    r := ReadWire(Mix, key.codec, w);
  }

  /** `l[start:stop:step]`: the Python slice of the whole list, each element
      read back through the codec; a zero step is Python's `ValueError`. */
  method GetSlice(key: Key, start: Option<int>, stop: Option<int>, step: Option<int> := None) returns (r: Result<seq<PyValue>>)
    ensures ListAt(key.client.db, key.name).Err? ==> r == Err(TypeError)
    ensures ListAt(key.client.db, key.name).Ok? && step == Some(0) ==> r == Err(ValueError)
    ensures ListAt(key.client.db, key.name).Ok? && step != Some(0) ==>
      r == ReadAll(Mix, key.codec, StepSlice(ItemsOf(key.client.db, key.name), start, stop, step).value)
  {
    var all := RaiseWhenWrongType(LRange(key.client.db, key.name, Leftmost, Rightmost));
    if all.Err? {
      return Err(all.error);
    }
    var part := StepSlice(all.value, start, stop, step);
    if part.Err? {
      return Err(part.error);
    }
    r := ReadAll(Mix, key.codec, part.value);
  }

  /** With the string codec a slice reads back as the stored texts themselves. */
  lemma StringSliceIsSlice(ws: seq<string>, start: Option<int>, stop: Option<int>, step: Option<int>)
    requires step != Some(0)
    ensures var xs := StepSlice(ws, start, stop, step).value;
      ReadAll(Mix, String, xs) == Ok(seq(|xs|, i requires 0 <= i < |xs| => PStr(xs[i])))
  {
    var xs := StepSlice(ws, start, stop, step).value;
    var got := ReadAll(Mix, String, xs);
    assert forall i :: 0 <= i < |xs| ==> Read(Mix, String, PStr(xs[i])) == Ok(PStr(xs[i]));
    assert got.value == seq(|xs|, i requires 0 <= i < |xs| => PStr(xs[i]));
  }

  /** The position an index names, and whether LSET takes it. */
  predicate Settable(st: S.Store, k: string, i: int) {
    k in st.data && ListAt(st, k).Ok? && -|ItemsOf(st, k)| <= i < |ItemsOf(st, k)|
  }

  /** An index further below zero than the list is long. */
  predicate BelowList(st: S.Store, k: string, i: int) {
    ListAt(st, k).Ok? && i < -|ItemsOf(st, k)|
  }

  /** `l[key] = value`: an absent key is `IndexError`, a slice is
      `NotImplementedError`, an index at or past the length is `IndexError`,
      then the value is converted and LSET sent; LSET's refusal of an index
      too far below zero becomes `TypeError`. Only the one position changes. */
  method SetItem(key: Key, sub: Subscript, v: PyValue) returns (r: Result<()>)
    modifies key.client
    ensures key.name !in old(key.client.db).data ==> r == Err(IndexError)
    ensures key.name in old(key.client.db).data && sub.Range? ==> r == Err(NotImplementedError)
    ensures key.name in old(key.client.db).data && sub.At? && ListAt(old(key.client.db), key.name).Err? ==>
      r == Err(TypeError)
    ensures sub.At? && ListAt(old(key.client.db), key.name).Ok? && sub.index >= |ItemsOf(old(key.client.db), key.name)| ==>
      r == Err(IndexError)
    ensures sub.At? && key.name in old(key.client.db).data && ListAt(old(key.client.db), key.name).Ok? ==>
      sub.index < |ItemsOf(old(key.client.db), key.name)| && ToRedis(key.codec, v).Err? ==> r == Err(ValueError)
    ensures sub.At? && key.name in old(key.client.db).data && BelowList(old(key.client.db), key.name, sub.index) ==>
      ToRedis(key.codec, v).Ok? ==> r == Err(TypeError)
    ensures r.Ok? <==> sub.At? && Settable(old(key.client.db), key.name, sub.index) && ToRedis(key.codec, v).Ok?
    ensures r.Err? ==> key.client.db == old(key.client.db)
    ensures r.Ok? ==>
      ItemsOf(key.client.db, key.name) ==
      SetIndex(ItemsOf(old(key.client.db), key.name), sub.index, Str(ToRedis(key.codec, v).value)).value
    ensures r.Ok? ==> S.SameElsewhere(old(key.client.db), key.client.db, key.name)
    ensures r.Ok? ==> S.Ttl(key.client.db, key.name) == S.Ttl(old(key.client.db), key.name)
    ensures r.Ok? && Lossless(key.codec, v) ==>
      Read(Mix, key.codec, PStr(Index(ItemsOf(key.client.db, key.name), sub.index).value)) == Ok(v)
  {
    var present := Exists(key);
    if !present {
      return Err(IndexError);
    }
    if sub.Range? {
      return Err(NotImplementedError);
    }
    var n := Len(key);
    if n.Err? {
      return Err(n.error);
    }
    if sub.index >= n.value {
      return Err(IndexError);
    }
    var encoded := ToRedis(key.codec, v);
    if encoded.Err? {
      return Err(encoded.error);
    }
    var text := Str(encoded.value);
    if Lossless(key.codec, v) && Settable(key.client.db, key.name, sub.index) {
      SetAtReadsBack(key.client.db, key.name, sub.index, key.codec, v);
    }
    r := key.client.SendStatus(LSet(key.client.db, key.name, sub.index, text));
    r := RaiseWhenWrongType(r);
  }

  /** After LSET of a converted value, the position reads the value back. */
  lemma SetAtReadsBack(st: S.Store, k: string, i: int, c: Codec, v: PyValue)
    requires Settable(st, k, i) && ToRedis(c, v).Ok? && Lossless(c, v)
    ensures var after := LSet(st, k, i, Str(ToRedis(c, v).value));
      after.Ok? && Read(Mix, c, PStr(Index(ItemsOf(after.value, k), i).value)) == Ok(v)
  {
    var t := Str(ToRedis(c, v).value);
    var after := LSet(st, k, i, t);
    SetIndexThenIndex(ItemsOf(st, k), i, t);
    assert Index(ItemsOf(after.value, k), i) == Ok(t);
    RoundTrip(Mix, c, v);
  }

  /** Python's `s[i] = x` followed by `s[i]` gives `x`. */
  lemma SetIndexThenIndex(xs: seq<string>, i: int, t: string)
    requires -|xs| <= i < |xs|
    ensures Index(SetIndex(xs, i, t).value, i) == Ok(t)
  {
  }

  /** The LTRIM range `__delitem__` sends, as written: `[:]` becomes the
      empty range 1..0, `[x:]` keeps 0..x-1, `[:y]` keeps y..-1; any other
      subscript has none. */
  function TrimRange(sub: Subscript): (r: Option<(int, int)>)
    ensures r.Some? <==> sub.Range? && (sub.start.None? || sub.stop.None?)
  {
    match sub
    case At(_) => None
    case Range(None, None, _) => Some((1, 0))
    case Range(Some(x), None, _) => Some((Leftmost, x - 1))
    case Range(None, Some(y), _) => Some((y, Rightmost))
    case Range(Some(_), Some(_), _) => None
  }

  /** `[0:]`, with any step. */
  predicate FromZero(sub: Subscript) { sub.Range? && sub.start == Some(0) && sub.stop.None? }

  /** What LTRIM keeps of `xs` for an inclusive range. */
  function Trimmed(xs: seq<string>, range: (int, int)): (r: seq<string>)
    ensures |r| <= |xs|
  {
    var w := Window(|xs|, range.0, range.1);
    xs[w.0..w.1]
  }

  /** For every slice it handles but `[0:]`, the range as written removes
      exactly what Python's `del` on the slice does, when the slice has no
      step. */
  lemma TrimRangeDeletes(xs: seq<string>, sub: Subscript)
    requires TrimRange(sub).Some? && !FromZero(sub) && !Stepped(sub)
    ensures DelSubscript(xs, sub).Ok? && Trimmed(xs, TrimRange(sub).value) == DelSubscript(xs, sub).value
  {
    var n := |xs|;
    match sub
    case Range(None, None, _) =>
    case Range(Some(x), None, _) =>
      var lo := SliceBound(Some(x), n, 0);
      if x > 0 {
        assert Trimmed(xs, (Leftmost, x - 1)) == xs[..lo];
      } else if x + n > 0 {
        assert Trimmed(xs, (Leftmost, x - 1)) == xs[..x + n];
      } else {
        assert lo == 0;
      }
    case Range(None, Some(y), _) =>
      var hi := SliceBound(Some(y), n, n);
      if 0 <= y < n {
        assert Trimmed(xs, (y, Rightmost)) == xs[y..];
      } else if y < 0 {
        assert hi == 0 || y + n >= 0;
        if y + n > 0 {
          assert Trimmed(xs, (y, Rightmost)) == xs[y + n..];
        } else {
          assert Trimmed(xs, (y, Rightmost)) == xs;
        }
      }
  }

  /** `del l[0:]` as written keeps a non-empty list whole: LTRIM's stop of -1
      names the last element, where Python's `del l[0:]` empties the list. */
  lemma DeleteFromZeroKeepsAll(xs: seq<string>)
    requires xs != []
    ensures Trimmed(xs, TrimRange(Range(Some(0), None, None)).value) == xs
    ensures DelSubscript(xs, Range(Some(0), None, None)) == Ok([])
  {
    assert Window(|xs|, Leftmost, 0 - 1) == (0, |xs|);
    assert SliceBound(Some(0), |xs|, 0) == 0 && SliceBound(None, |xs|, |xs|) == |xs|;
    assert xs[..0] + xs[|xs|..] == [];
  }

  /** `del l[::2]` as written empties a list of two or more: the step is
      dropped, so `[::2]` is trimmed like `[:]`, where Python's `del` keeps
      every second element, the one at 1 among them. */
  lemma StepIgnored(xs: seq<string>)
    requires |xs| >= 2
    ensures Trimmed(xs, TrimRange(Range(None, None, Some(2))).value) == []
    ensures DelSubscript(xs, Range(None, None, Some(2))).Ok?
    ensures xs[1] in DelSubscript(xs, Range(None, None, Some(2))).value
  {
    assert !OnStride(1, 0, 2, StepCount(0, |xs|, 2));
  }

  /** The range `__delitem__` evidently means to send: `[0:]`, like `[:]`,
      becomes the empty range, and a slice with a step, which no one LTRIM
      removes, has none. */
  function TrimRangeCorrected(sub: Subscript): (r: Option<(int, int)>)
    ensures r.Some? <==> TrimRange(sub).Some? && !Stepped(sub)
    ensures !FromZero(sub) && !Stepped(sub) ==> r == TrimRange(sub)
  {
    if Stepped(sub) then None
    else if FromZero(sub) then Some((1, 0))
    else TrimRange(sub)
  }

  /** The corrected range removes exactly Python's `del` on every slice it handles. */
  lemma TrimRangeCorrectedDeletes(xs: seq<string>, sub: Subscript)
    requires TrimRangeCorrected(sub).Some?
    ensures DelSubscript(xs, sub).Ok? && Trimmed(xs, TrimRangeCorrected(sub).value) == DelSubscript(xs, sub).value
  {
    if FromZero(sub) {
      assert Window(|xs|, 1, 0) == (0, 0);
      assert SliceBound(Some(0), |xs|, 0) == 0;
    } else {
      TrimRangeDeletes(xs, sub);
    }
  }

  /** `del l[key]`, as written: one LTRIM for `[:]`, `[x:]` and `[:y]`;
      every other subscript is `NotImplementedError`. */
  method DelItem(key: Key, sub: Subscript) returns (r: Result<()>)
    modifies key.client
    ensures TrimRange(sub).None? ==> r == Err(NotImplementedError)
    ensures TrimRange(sub).Some? ==> (r.Ok? <==> ListAt(old(key.client.db), key.name).Ok?)
    ensures TrimRange(sub).Some? && r.Err? ==> r.error == TypeError
    ensures r.Err? ==> key.client.db == old(key.client.db)
    ensures r.Ok? ==> ItemsOf(key.client.db, key.name) == Trimmed(ItemsOf(old(key.client.db), key.name), TrimRange(sub).value)
    ensures r.Ok? ==> S.SameElsewhere(old(key.client.db), key.client.db, key.name)
  {
    var range := TrimRange(sub);
    if range.None? {
      return Err(NotImplementedError);
    }
    r := key.client.SendStatus(LTrim(key.client.db, key.name, range.value.0, range.value.1));
    r := RaiseWhenWrongType(r);
  }

  /** `del l[key]` with the corrected range: what is left is Python's `del`;
      a slice with a step is refused like the subscripts LTRIM cannot express. */
  method DelItemCorrected(key: Key, sub: Subscript) returns (r: Result<()>)
    modifies key.client
    ensures TrimRangeCorrected(sub).None? ==> r == Err(NotImplementedError)
    ensures TrimRangeCorrected(sub).Some? ==> (r.Ok? <==> ListAt(old(key.client.db), key.name).Ok?)
    ensures TrimRangeCorrected(sub).Some? && r.Err? ==> r.error == TypeError
    ensures r.Err? ==> key.client.db == old(key.client.db)
    ensures r.Ok? ==> ItemsOf(key.client.db, key.name) == DelSubscript(ItemsOf(old(key.client.db), key.name), sub).value
    ensures r.Ok? ==> S.SameElsewhere(old(key.client.db), key.client.db, key.name)
  {
    var range := TrimRangeCorrected(sub);
    if range.None? {
      return Err(NotImplementedError);
    }
    TrimRangeCorrectedDeletes(ItemsOf(key.client.db, key.name), sub);
    r := key.client.SendStatus(LTrim(key.client.db, key.name, range.value.0, range.value.1));
    r := RaiseWhenWrongType(r);
  }

  /** `remove(value)`: LREM of every element equal to the converted value;
      the others stay in order and the reply is how many went. */
  method Remove(key: Key, v: PyValue) returns (r: Result<nat>)
    modifies key.client
    ensures ToRedis(key.codec, v).Err? ==> r == Err(ValueError)
    ensures ToRedis(key.codec, v).Ok? && ListAt(old(key.client.db), key.name).Err? ==> r == Err(TypeError)
    ensures r.Ok? <==> ToRedis(key.codec, v).Ok? && ListAt(old(key.client.db), key.name).Ok?
    ensures r.Err? ==> key.client.db == old(key.client.db)
    ensures r.Ok? ==> var text := Str(ToRedis(key.codec, v).value);
      r.value == Count(ItemsOf(old(key.client.db), key.name), text) &&
      ItemsOf(key.client.db, key.name) == Without(ItemsOf(old(key.client.db), key.name), text)
    ensures r.Ok? ==> S.SameElsewhere(old(key.client.db), key.client.db, key.name)
  {
    var encoded := ToRedis(key.codec, v);
    if encoded.Err? {
      return Err(encoded.error);
    }
    r := key.client.Send(LRem(key.client.db, key.name, Str(encoded.value)));
    r := RaiseWhenWrongType(r);
  }

  /** `lpush(value)`: the converted value goes to the head. */
  method LPush(key: Key, v: PyValue) returns (r: Result<()>)
    modifies key.client
    ensures ToRedis(key.codec, v).Err? ==> r == Err(ValueError)
    ensures ToRedis(key.codec, v).Ok? && ListAt(old(key.client.db), key.name).Err? ==> r == Err(TypeError)
    ensures r.Ok? <==> ToRedis(key.codec, v).Ok? && ListAt(old(key.client.db), key.name).Ok?
    ensures r.Err? ==> key.client.db == old(key.client.db)
    ensures r.Ok? ==>
      ItemsOf(key.client.db, key.name) == [Str(ToRedis(key.codec, v).value)] + ItemsOf(old(key.client.db), key.name)
    ensures r.Ok? ==> S.SameElsewhere(old(key.client.db), key.client.db, key.name)
  {
    var encoded := ToRedis(key.codec, v);
    if encoded.Err? {
      return Err(encoded.error);
    }
    var pushed := key.client.Send(ListCommands.LPush(key.client.db, key.name, [Str(encoded.value)]));
    pushed := RaiseWhenWrongType(pushed);
    if pushed.Err? {
      return Err(pushed.error);
    }
    assert Reverse([Str(encoded.value)]) == [Str(encoded.value)];
    r := Ok(());
  }

  /** `rpush(value)`: the converted value goes to the tail. */
  method RPush(key: Key, v: PyValue) returns (r: Result<()>)
    modifies key.client
    ensures ToRedis(key.codec, v).Err? ==> r == Err(ValueError)
    ensures ToRedis(key.codec, v).Ok? && ListAt(old(key.client.db), key.name).Err? ==> r == Err(TypeError)
    ensures r.Ok? <==> ToRedis(key.codec, v).Ok? && ListAt(old(key.client.db), key.name).Ok?
    ensures r.Err? ==> key.client.db == old(key.client.db)
    ensures r.Ok? ==>
      ItemsOf(key.client.db, key.name) == ItemsOf(old(key.client.db), key.name) + [Str(ToRedis(key.codec, v).value)]
    ensures r.Ok? ==> S.SameElsewhere(old(key.client.db), key.client.db, key.name)
  {
    var encoded := ToRedis(key.codec, v);
    if encoded.Err? {
      return Err(encoded.error);
    }
    var pushed := key.client.Send(ListCommands.RPush(key.client.db, key.name, [Str(encoded.value)]));
    pushed := RaiseWhenWrongType(pushed);
    if pushed.Err? {
      return Err(pushed.error);
    }
    r := Ok(());
  }

  /** `lpop()`: `IndexError` on an empty or absent list, which is left alone;
      otherwise the head, read back, and the rest stays. */
  method LPop(key: Key) returns (r: Result<PyValue>)
    modifies key.client
    ensures ListAt(old(key.client.db), key.name).Err? ==> r == Err(TypeError)
    ensures ListAt(old(key.client.db), key.name).Ok? && ItemsOf(old(key.client.db), key.name) == [] ==>
      r == Err(IndexError)
    ensures ListAt(old(key.client.db), key.name).Err? || ItemsOf(old(key.client.db), key.name) == [] ==>
      key.client.db == old(key.client.db)
    ensures ListAt(old(key.client.db), key.name).Ok? && ItemsOf(old(key.client.db), key.name) != [] ==>
      var xs := ItemsOf(old(key.client.db), key.name);
      r == Read(Mix, key.codec, PStr(xs[0])) && ItemsOf(key.client.db, key.name) == xs[1..] &&
      S.SameElsewhere(old(key.client.db), key.client.db, key.name)
  {
    var n := Len(key);
    if n.Err? {
      return Err(n.error);
    }
    if n.value == 0 {
      return Err(IndexError);
    }
    var popped := key.client.Send(ListCommands.LPop(key.client.db, key.name));
    r := ReadWire(Mix, key.codec, popped.value);
  }

  /** `rpop()`: the tail, with the same errors as `lpop`. */
  method RPop(key: Key) returns (r: Result<PyValue>)
    modifies key.client
    ensures ListAt(old(key.client.db), key.name).Err? ==> r == Err(TypeError)
    ensures ListAt(old(key.client.db), key.name).Ok? && ItemsOf(old(key.client.db), key.name) == [] ==>
      r == Err(IndexError)
    ensures ListAt(old(key.client.db), key.name).Err? || ItemsOf(old(key.client.db), key.name) == [] ==>
      key.client.db == old(key.client.db)
    ensures ListAt(old(key.client.db), key.name).Ok? && ItemsOf(old(key.client.db), key.name) != [] ==>
      var xs := ItemsOf(old(key.client.db), key.name);
      r == Read(Mix, key.codec, PStr(xs[|xs| - 1])) && ItemsOf(key.client.db, key.name) == xs[..|xs| - 1] &&
      S.SameElsewhere(old(key.client.db), key.client.db, key.name)
  {
    var n := Len(key);
    if n.Err? {
      return Err(n.error);
    }
    if n.value == 0 {
      return Err(IndexError);
    }
    var popped := key.client.Send(ListCommands.RPop(key.client.db, key.name));
    r := ReadWire(Mix, key.codec, popped.value);
  }

  /** `blpop(timeout)`, for the moment it is called: the head of a non-empty
      list, `None` on an empty one, the answer of a positive timeout that ran
      out. With timeout 0 the server would wait for a push; the model answers
      `None` there too. */
  method BLPop(key: Key, timeout: nat := 0) returns (r: Result<PyValue>)
    modifies key.client
    ensures ListAt(old(key.client.db), key.name).Err? ==> r == Err(TypeError)
    ensures ListAt(old(key.client.db), key.name).Ok? && ItemsOf(old(key.client.db), key.name) == [] ==>
      r == Ok(PNone)
    ensures ItemsOf(old(key.client.db), key.name) == [] ==> key.client.db == old(key.client.db)
    ensures ListAt(old(key.client.db), key.name).Ok? && ItemsOf(old(key.client.db), key.name) != [] ==>
      var xs := ItemsOf(old(key.client.db), key.name);
      r == Read(Mix, key.codec, PStr(xs[0])) && ItemsOf(key.client.db, key.name) == xs[1..] &&
      S.SameElsewhere(old(key.client.db), key.client.db, key.name)
  {
    var popped := key.client.Send(ListCommands.LPop(key.client.db, key.name));
    popped := RaiseWhenWrongType(popped);
    if popped.Err? {
      return Err(popped.error);
    }
    r := ReadWire(Mix, key.codec, popped.value);
  }

  /** `brpop(timeout)`: the tail of a non-empty list, `None` on an empty one,
      with timeout 0 as for `blpop`. */
  method BRPop(key: Key, timeout: nat := 0) returns (r: Result<PyValue>)
    modifies key.client
    ensures ListAt(old(key.client.db), key.name).Err? ==> r == Err(TypeError)
    ensures ListAt(old(key.client.db), key.name).Ok? && ItemsOf(old(key.client.db), key.name) == [] ==>
      r == Ok(PNone)
    ensures ItemsOf(old(key.client.db), key.name) == [] ==> key.client.db == old(key.client.db)
    ensures ListAt(old(key.client.db), key.name).Ok? && ItemsOf(old(key.client.db), key.name) != [] ==>
      var xs := ItemsOf(old(key.client.db), key.name);
      r == Read(Mix, key.codec, PStr(xs[|xs| - 1])) && ItemsOf(key.client.db, key.name) == xs[..|xs| - 1] &&
      S.SameElsewhere(old(key.client.db), key.client.db, key.name)
  {
    var popped := key.client.Send(ListCommands.RPop(key.client.db, key.name));
    popped := RaiseWhenWrongType(popped);
    if popped.Err? {
      return Err(popped.error);
    }
    r := ReadWire(Mix, key.codec, popped.value);
  }

  /** `rpoplpush(destination)`: the tail moves to the head of the list the
      destination names, and comes back read; an empty source gives `None`
      and changes nothing. */
  method RPopLPush(key: Key, destination: MixHelper.KeyOrName) returns (r: Result<PyValue>)
    modifies key.client
    ensures ListCommands.RPopLPush(old(key.client.db), key.name, MixHelper.NameOf(destination)).Err? ==>
      r == Err(TypeError) && key.client.db == old(key.client.db)
    ensures ListAt(old(key.client.db), key.name).Ok? && ItemsOf(old(key.client.db), key.name) == [] ==>
      r == Ok(PNone) && key.client.db == old(key.client.db)
    ensures ListAt(old(key.client.db), key.name).Ok? && ItemsOf(old(key.client.db), key.name) != [] ==>
      var dst := MixHelper.NameOf(destination); var xs := ItemsOf(old(key.client.db), key.name);
      ListAt(old(key.client.db), dst).Ok? ==>
        r == Read(Mix, key.codec, PStr(xs[|xs| - 1])) &&
        (key.name == dst ==> ItemsOf(key.client.db, key.name) == [xs[|xs| - 1]] + xs[..|xs| - 1]) &&
        (key.name != dst ==>
           ItemsOf(key.client.db, key.name) == xs[..|xs| - 1] &&
           ItemsOf(key.client.db, dst) == [xs[|xs| - 1]] + ItemsOf(old(key.client.db), dst)) &&
        S.SameElsewhere2(old(key.client.db), key.client.db, key.name, dst)
  {
    var dst := MixHelper.NameOf(destination);
    var moved := key.client.Send(ListCommands.RPopLPush(key.client.db, key.name, dst));
    moved := RaiseWhenWrongType(moved);
    if moved.Err? {
      return Err(moved.error);
    }
    r := ReadWire(Mix, key.codec, moved.value);
  }

  /** `brpoplpush(destination, timeout)`, for the moment it is called: what
      `rpoplpush` does, `None` when the source is empty, with timeout 0 as for
      `blpop`. */
  method BRPopLPush(key: Key, destination: MixHelper.KeyOrName, timeout: nat := 0) returns (r: Result<PyValue>)
    modifies key.client
    ensures ListCommands.RPopLPush(old(key.client.db), key.name, MixHelper.NameOf(destination)).Err? ==>
      r == Err(TypeError) && key.client.db == old(key.client.db)
    ensures ListAt(old(key.client.db), key.name).Ok? && ItemsOf(old(key.client.db), key.name) == [] ==>
      r == Ok(PNone) && key.client.db == old(key.client.db)
    ensures ListAt(old(key.client.db), key.name).Ok? && ItemsOf(old(key.client.db), key.name) != [] ==>
      var dst := MixHelper.NameOf(destination); var xs := ItemsOf(old(key.client.db), key.name);
      ListAt(old(key.client.db), dst).Ok? ==>
        r == Read(Mix, key.codec, PStr(xs[|xs| - 1])) &&
        (key.name == dst ==> ItemsOf(key.client.db, key.name) == [xs[|xs| - 1]] + xs[..|xs| - 1]) &&
        (key.name != dst ==>
           ItemsOf(key.client.db, key.name) == xs[..|xs| - 1] &&
           ItemsOf(key.client.db, dst) == [xs[|xs| - 1]] + ItemsOf(old(key.client.db), dst)) &&
        S.SameElsewhere2(old(key.client.db), key.client.db, key.name, dst)
  {
    r := RPopLPush(key, destination);
  }

  /** `lpush(x)` then `lpop()` gives `x` back and the list as it was. */
  lemma LPushThenLPop(st: S.Store, k: string, c: Codec, v: PyValue)
    requires ListAt(st, k).Ok? && ToRedis(c, v).Ok? && Lossless(c, v)
    ensures var pushed := ListCommands.LPush(st, k, [Str(ToRedis(c, v).value)]);
      pushed.Ok? && var xs := ItemsOf(pushed.value.after, k);
      xs != [] && Read(Mix, c, PStr(xs[0])) == Ok(v) && xs[1..] == ItemsOf(st, k)
  {
    var text := Str(ToRedis(c, v).value);
    ListCommands.LPushThenLPop(st, k, text);
    RoundTrip(Mix, c, v);
  }

  /** `rpush(x)` then `rpop()` gives `x` back and the list as it was. */
  lemma RPushThenRPop(st: S.Store, k: string, c: Codec, v: PyValue)
    requires ListAt(st, k).Ok? && ToRedis(c, v).Ok? && Lossless(c, v)
    ensures var pushed := ListCommands.RPush(st, k, [Str(ToRedis(c, v).value)]);
      pushed.Ok? && var xs := ItemsOf(pushed.value.after, k);
      xs != [] && Read(Mix, c, PStr(xs[|xs| - 1])) == Ok(v) && xs[..|xs| - 1] == ItemsOf(st, k)
  {
    var text := Str(ToRedis(c, v).value);
    ListCommands.RPushThenRPop(st, k, text);
    RoundTrip(Mix, c, v);
  }
}
