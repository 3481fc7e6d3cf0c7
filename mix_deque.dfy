/**
 * `Deque` of the first generation: a server list used from both ends. It has
 * no codec: the driver sends `str()` of every item and hands back the stored
 * texts. A server error becomes `TypeError`; deleting or assigning a position
 * is refused outright.
 */
module MixDeque {
  import opened Python
  import opened Wire
  import S = Store
  import opened ListCommands
  import opened RedisClient
  import opened KeyHelper
  import opened MixKey

  /** The texts the driver sends for some items: `str()` of each, in order. */
  function Texts(vs: seq<PyValue>): (r: seq<string>)
    ensures |r| == |vs|
    ensures forall i :: 0 <= i < |vs| ==> r[i] == Str(vs[i])
  {
    seq(|vs|, i requires 0 <= i < |vs| => Str(vs[i]))
  }

  /** The stored texts as the Python strings `list(self)` holds. */
  function Listed(ws: seq<string>): (r: seq<PyValue>)
    ensures |r| == |ws|
    ensures forall i :: 0 <= i < |ws| ==> r[i] == PStr(ws[i])
  {
    seq(|ws|, i requires 0 <= i < |ws| => PStr(ws[i]))
  }

  /** `__len__`: the number of items, 0 for an absent key. */
  method Len(key: Key) returns (r: Result<nat>)
    ensures r.Err? <==> ListAt(key.client.db, key.name).Err?
    ensures r.Err? ==> r.error == TypeError
    ensures r.Ok? ==> r.value == |ItemsOf(key.client.db, key.name)|
    ensures key.name !in key.client.db.data ==> r == Ok(0)
  {
    r := RaiseWhenWrongType(LLen(key.client.db, key.name));
  }

  /** `append(*items)`: one RPUSH of all the items, which land at the right
      end in the order given. No items is a server error, hence `TypeError`. */
  method Append(key: Key, items: seq<PyValue>) returns (r: Result<()>)
    modifies key.client
    ensures items == [] ==> r == Err(TypeError)
    ensures r.Ok? <==> items != [] && ListAt(old(key.client.db), key.name).Ok?
    ensures r.Err? ==> r.error == TypeError && key.client.db == old(key.client.db)
    ensures r.Ok? ==> ItemsOf(key.client.db, key.name) == ItemsOf(old(key.client.db), key.name) + Texts(items)
    ensures r.Ok? ==> S.SameElsewhere(old(key.client.db), key.client.db, key.name)
  {
    var pushed := key.client.Send(RPush(key.client.db, key.name, Texts(items)));
    pushed := RaiseWhenWrongType(pushed);
    if pushed.Err? {
      return Err(pushed.error);
    }
    r := Ok(());
  }

  /** `appendleft(*items)`: one LPUSH, which puts each item in turn at the
      left end, so they end up reversed in front of the old items. */
  method AppendLeft(key: Key, items: seq<PyValue>) returns (r: Result<()>)
    modifies key.client
    ensures items == [] ==> r == Err(TypeError)
    ensures r.Ok? <==> items != [] && ListAt(old(key.client.db), key.name).Ok?
    ensures r.Err? ==> r.error == TypeError && key.client.db == old(key.client.db)
    ensures r.Ok? ==> ItemsOf(key.client.db, key.name) == Reverse(Texts(items)) + ItemsOf(old(key.client.db), key.name)
    ensures r.Ok? ==> S.SameElsewhere(old(key.client.db), key.client.db, key.name)
  {
    var pushed := key.client.Send(LPush(key.client.db, key.name, Texts(items)));
    pushed := RaiseWhenWrongType(pushed);
    if pushed.Err? {
      return Err(pushed.error);
    }
    r := Ok(());
  }

  /** `__iter__`: every stored text, left to right. */
  method Iter(key: Key) returns (r: Result<seq<string>>)
    ensures r.Err? <==> ListAt(key.client.db, key.name).Err?
    ensures r.Err? ==> r.error == TypeError
    ensures r.Ok? ==> r.value == ItemsOf(key.client.db, key.name)
  {
    r := RaiseWhenWrongType(LRange(key.client.db, key.name, 0, -1));
  }

  /** `clear`: the key is deleted, so the deque is empty and nothing else changes. */
  method Clear(key: Key)
    modifies key.client
    ensures key.name !in key.client.db.data
    ensures ItemsOf(key.client.db, key.name) == []
    ensures S.SameElsewhere(old(key.client.db), key.client.db, key.name)
  {
    Delete(key);
  }

  /** `count(item)`: how often `item` is among the stored texts. */
  method Count(key: Key, item: PyValue) returns (r: Result<nat>)
    ensures r.Err? <==> ListAt(key.client.db, key.name).Err?
    ensures r.Err? ==> r.error == TypeError
    ensures r.Ok? && item.PStr? ==> r.value == Python.Count(ItemsOf(key.client.db, key.name), item.s)
    ensures r.Ok? && !item.PStr? ==> r.value == 0
  {
    var all := Iter(key);
    if all.Err? {
      return Err(all.error);
    }
    CountListed(all.value, item);
    r := Ok(Python.Count(Listed(all.value), item));
  }

  /** Counting among the listed texts: a string is counted as its text, and
      anything else, such as the integer 1 next to a stored "1", never matches. */
  lemma {:induction false} CountListed(ws: seq<string>, item: PyValue)
    ensures item.PStr? ==> Python.Count(Listed(ws), item) == Python.Count(ws, item.s)
    ensures !item.PStr? ==> Python.Count(Listed(ws), item) == 0
  {
    if ws != [] {
      CountListed(ws[1..], item);
      assert Listed(ws) == [PStr(ws[0])] + Listed(ws[1..]);
      assert Listed(ws)[1..] == Listed(ws[1..]);
    }
  }

  /** `pop()`: the right end; `IndexError` when there is none. */
  method Pop(key: Key) returns (r: Result<string>)
    modifies key.client
    ensures ListAt(old(key.client.db), key.name).Err? ==> r == Err(TypeError)
    ensures ListAt(old(key.client.db), key.name).Ok? && ItemsOf(old(key.client.db), key.name) == [] ==>
      r == Err(IndexError)
    ensures r.Err? ==> key.client.db == old(key.client.db)
    ensures ListAt(old(key.client.db), key.name).Ok? && ItemsOf(old(key.client.db), key.name) != [] ==>
      var xs := ItemsOf(old(key.client.db), key.name);
      r == Ok(xs[|xs| - 1]) && ItemsOf(key.client.db, key.name) == xs[..|xs| - 1] &&
      S.SameElsewhere(old(key.client.db), key.client.db, key.name)
  {
    var item := key.client.Send(RPop(key.client.db, key.name));
    item := RaiseWhenWrongType(item);
    if item.Err? {
      return Err(item.error);
    }
    if item.value.None? {
      return Err(IndexError);
    }
    r := Ok(item.value.value);
  }

  /** `popleft()`: the left end; `IndexError` when there is none. */
  method PopLeft(key: Key) returns (r: Result<string>)
    modifies key.client
    ensures ListAt(old(key.client.db), key.name).Err? ==> r == Err(TypeError)
    ensures ListAt(old(key.client.db), key.name).Ok? && ItemsOf(old(key.client.db), key.name) == [] ==>
      r == Err(IndexError)
    ensures r.Err? ==> key.client.db == old(key.client.db)
    ensures ListAt(old(key.client.db), key.name).Ok? && ItemsOf(old(key.client.db), key.name) != [] ==>
      var xs := ItemsOf(old(key.client.db), key.name);
      r == Ok(xs[0]) && ItemsOf(key.client.db, key.name) == xs[1..] &&
      S.SameElsewhere(old(key.client.db), key.client.db, key.name)
  {
    var item := key.client.Send(LPop(key.client.db, key.name));
    item := RaiseWhenWrongType(item);
    if item.Err? {
      return Err(item.error);
    }
    if item.value.None? {
      return Err(IndexError);
    }
    r := Ok(item.value.value);
  }

  /** `d[i]`: the item at a Python index of the snapshot. */
  method GetAt(key: Key, i: int) returns (r: Result<string>)
    ensures ListAt(key.client.db, key.name).Err? ==> r == Err(TypeError)
    ensures ListAt(key.client.db, key.name).Ok? ==> r == Index(ItemsOf(key.client.db, key.name), i)
  {
    var all := Iter(key);
    if all.Err? {
      return Err(all.error);
    }
    r := Index(all.value, i);
  }

  /** `d[start:stop:step]`: the Python slice of the snapshot; a zero step is
      `ValueError`. */
  method GetSlice(key: Key, start: Option<int>, stop: Option<int>, step: Option<int> := None) returns (r: Result<seq<string>>)
    ensures ListAt(key.client.db, key.name).Err? ==> r == Err(TypeError)
    ensures ListAt(key.client.db, key.name).Ok? ==> r == StepSlice(ItemsOf(key.client.db, key.name), start, stop, step)
  {
    var all := Iter(key);
    if all.Err? {
      return Err(all.error);
    }
    r := StepSlice(all.value, start, stop, step);
  }

  /** `del d[key]` is refused with a bare `Exception`, and nothing changes. */
  method DelItem(key: Key, sub: Subscript) returns (r: Result<()>)
    ensures r == Err(Exception)
  {
    r := Err(Exception);
  }

  /** `d[key] = item` is refused with a bare `Exception`, and nothing changes. */
  method SetItem(key: Key, sub: Subscript, item: PyValue) returns (r: Result<()>)
    ensures r == Err(Exception)
  {
    r := Err(Exception);
  }

  /** `append(x)` then `pop()` gives back the text of `x` and the deque as it was. */
  lemma AppendThenPop(st: S.Store, k: string, x: PyValue)
    requires ListAt(st, k).Ok?
    ensures var pushed := RPush(st, k, Texts([x]));
      pushed.Ok? && var popped := RPop(pushed.value.after, k);
      popped.Ok? && popped.value.reply == Some(Str(x)) && ItemsOf(popped.value.after, k) == ItemsOf(st, k)
  {
    assert Texts([x]) == [Str(x)];
    RPushThenRPop(st, k, Str(x));
  }

  /** `appendleft(x)` then `popleft()` gives back the text of `x` and the deque as it was. */
  lemma AppendLeftThenPopLeft(st: S.Store, k: string, x: PyValue)
    requires ListAt(st, k).Ok?
    ensures var pushed := LPush(st, k, Texts([x]));
      pushed.Ok? && var popped := LPop(pushed.value.after, k);
      popped.Ok? && popped.value.reply == Some(Str(x)) && ItemsOf(popped.value.after, k) == ItemsOf(st, k)
  {
    assert Texts([x]) == [Str(x)];
    LPushThenLPop(st, k, Str(x));
  }
}
