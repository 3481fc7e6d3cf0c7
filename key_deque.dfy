/**
 * `Deque` of the second generation: a server list with a codec. Pushes and
 * pops are the server's; reading, counting, assigning and deleting a
 * position work on the decoded snapshot `list(self)`, and the last two write
 * the whole snapshot back after deleting the key. `append` and `extend` lack
 * the translation wrapper the other methods carry.
 */
module KeyDeque {
  import opened Python
  import opened Wire
  import S = Store
  import opened ListCommands
  import opened RedisClient
  import opened Codec
  import opened KeyHelper
  import opened BaseKey
  import C = CommonKeyPropertyMixin

  /** `list(self)`: every stored text decoded, left to right; a key of another
      type, or a text the codec cannot read, is `TypeError`. */
  function Snapshot(st: S.Store, k: string, c: Codec): (r: Result<seq<PyValue>>)
    ensures ListAt(st, k).Err? ==> r == Err(TypeError)
    ensures ListAt(st, k).Ok? ==> r == ReadAll(Package, c, ItemsOf(st, k))
    ensures r.Err? ==> r.error == TypeError
  {
    match ListAt(st, k)
    case Err(_) => Err(TypeError)
    case Ok(ws) => ReadAll(Package, c, ws)
  }

  /** `__iter__`. */
  method Iter(key: Key) returns (r: Result<seq<PyValue>>)
    ensures r == Snapshot(key.client.db, key.name, key.codec)
  {
    var all := RaiseWhenWrongType(LRange(key.client.db, key.name, 0, -1));
    if all.Err? {
      return Err(all.error);
    }
    r := ReadAll(Package, key.codec, all.value);
  }

  /** `__len__`: the number of items, 0 for an absent key. */
  method Len(key: Key) returns (r: Result<nat>)
    ensures r.Err? <==> ListAt(key.client.db, key.name).Err?
    ensures r.Err? ==> r.error == TypeError
    ensures r.Ok? ==> r.value == |ItemsOf(key.client.db, key.name)|
  {
    r := RaiseWhenWrongType(LLen(key.client.db, key.name));
  }

  /** `append(item)`, as written: the encoded item goes to the right end; with
      no wrapper, the server's refusal of a key of another type escapes as
      the server's error instead of `TypeError`. */
  method Append(key: Key, item: PyValue) returns (r: Result<()>)
    modifies key.client
    ensures Write(Package, key.codec, item).Err? ==> r == Err(TypeError)
    ensures Write(Package, key.codec, item).Ok? && ListAt(old(key.client.db), key.name).Err? ==>
      r == Err(S.WrongTypeError)
    ensures r.Ok? <==> Write(Package, key.codec, item).Ok? && ListAt(old(key.client.db), key.name).Ok?
    ensures r.Err? ==> key.client.db == old(key.client.db)
    ensures r.Ok? ==>
      ItemsOf(key.client.db, key.name) ==
      ItemsOf(old(key.client.db), key.name) + [Str(Write(Package, key.codec, item).value)]
    ensures r.Ok? ==> S.SameElsewhere(old(key.client.db), key.client.db, key.name)
  {
    var encoded := Encode(key.codec, item);
    if encoded.Err? {
      return Err(encoded.error);
    }
    var pushed := key.client.Send(RPush(key.client.db, key.name, [Str(encoded.value)]));
    if pushed.Err? {
      return Err(pushed.error);
    }
    r := Ok(());
  }

  /** `append(item)` with the wrapper its documentation promises: every failure
      is `TypeError`. */
  method AppendCorrected(key: Key, item: PyValue) returns (r: Result<()>)
    modifies key.client
    ensures r.Err? <==> Write(Package, key.codec, item).Err? || ListAt(old(key.client.db), key.name).Err?
    ensures r.Err? ==> r.error == TypeError && key.client.db == old(key.client.db)
    ensures r.Ok? ==>
      ItemsOf(key.client.db, key.name) ==
      ItemsOf(old(key.client.db), key.name) + [Str(Write(Package, key.codec, item).value)]
    ensures r.Ok? ==> S.SameElsewhere(old(key.client.db), key.client.db, key.name)
  {
    r := Append(key, item);
    r := RaiseWhenWrongType(r);
  }

  /** `appendleft(item)`: the encoded item goes to the left end. */
  method AppendLeft(key: Key, item: PyValue) returns (r: Result<()>)
    modifies key.client
    ensures r.Err? <==> Write(Package, key.codec, item).Err? || ListAt(old(key.client.db), key.name).Err?
    ensures r.Err? ==> r.error == TypeError && key.client.db == old(key.client.db)
    ensures r.Ok? ==>
      ItemsOf(key.client.db, key.name) ==
      [Str(Write(Package, key.codec, item).value)] + ItemsOf(old(key.client.db), key.name)
    ensures r.Ok? ==> S.SameElsewhere(old(key.client.db), key.client.db, key.name)
  {
    var encoded := Encode(key.codec, item);
    if encoded.Err? {
      return Err(encoded.error);
    }
    var text := Str(encoded.value);
    var pushed := key.client.Send(LPush(key.client.db, key.name, [text]));
    pushed := RaiseWhenWrongType(pushed);
    if pushed.Err? {
      return Err(pushed.error);
    }
    assert Reverse([text]) == [text];
    r := Ok(());
  }

  /** `extend(items)`, as written: one RPUSH of every encoded item, in order.
      Without the wrapper, an empty iterable and a key of another type
      surface as the server's errors. */
  method Extend(key: Key, items: seq<PyValue>) returns (r: Result<()>)
    modifies key.client
    ensures WriteAll(Package, key.codec, items).Err? ==> r == Err(TypeError)
    ensures WriteAll(Package, key.codec, items).Ok? && items == [] ==> r == Err(ResponseError(WrongArity))
    ensures WriteAll(Package, key.codec, items).Ok? && items != [] && ListAt(old(key.client.db), key.name).Err? ==>
      r == Err(S.WrongTypeError)
    ensures r.Ok? <==>
      WriteAll(Package, key.codec, items).Ok? && items != [] && ListAt(old(key.client.db), key.name).Ok?
    ensures r.Err? ==> key.client.db == old(key.client.db)
    ensures r.Ok? ==>
      ItemsOf(key.client.db, key.name) == ItemsOf(old(key.client.db), key.name) + WriteAll(Package, key.codec, items).value
    ensures r.Ok? ==> S.SameElsewhere(old(key.client.db), key.client.db, key.name)
    ensures r.Ok? ==> S.Ttl(key.client.db, key.name) == S.Ttl(old(key.client.db), key.name)
  {
    var encoded := WriteAll(Package, key.codec, items);
    if encoded.Err? {
      return Err(encoded.error);
    }
    var pushed := key.client.Send(RPush(key.client.db, key.name, encoded.value));
    if pushed.Err? {
      return Err(pushed.error);
    }
    r := Ok(());
  }

  /** `extend(items)` with the wrapper: every failure is `TypeError`. */
  method ExtendCorrected(key: Key, items: seq<PyValue>) returns (r: Result<()>)
    modifies key.client
    ensures r.Err? <==>
      WriteAll(Package, key.codec, items).Err? || items == [] || ListAt(old(key.client.db), key.name).Err?
    ensures r.Err? ==> r.error == TypeError && key.client.db == old(key.client.db)
    ensures r.Ok? ==>
      ItemsOf(key.client.db, key.name) == ItemsOf(old(key.client.db), key.name) + WriteAll(Package, key.codec, items).value
    ensures r.Ok? ==> S.SameElsewhere(old(key.client.db), key.client.db, key.name)
  {
    r := Extend(key, items);
    r := RaiseWhenWrongType(r);
  }

  /** `extendleft(items)`: one LPUSH, so the items end up reversed in front. */
  method ExtendLeft(key: Key, items: seq<PyValue>) returns (r: Result<()>)
    modifies key.client
    ensures r.Err? <==>
      WriteAll(Package, key.codec, items).Err? || items == [] || ListAt(old(key.client.db), key.name).Err?
    ensures r.Err? ==> r.error == TypeError && key.client.db == old(key.client.db)
    ensures r.Ok? ==>
      ItemsOf(key.client.db, key.name) ==
      Reverse(WriteAll(Package, key.codec, items).value) + ItemsOf(old(key.client.db), key.name)
    ensures r.Ok? ==> S.SameElsewhere(old(key.client.db), key.client.db, key.name)
  {
    var encoded := WriteAll(Package, key.codec, items);
    if encoded.Err? {
      return Err(encoded.error);
    }
    var pushed := key.client.Send(LPush(key.client.db, key.name, encoded.value));
    pushed := RaiseWhenWrongType(pushed);
    if pushed.Err? {
      return Err(pushed.error);
    }
    r := Ok(());
  }

  /** `clear`: the key is deleted. */
  method Clear(key: Key)
    modifies key.client
    ensures key.name !in key.client.db.data && ItemsOf(key.client.db, key.name) == []
    ensures S.SameElsewhere(old(key.client.db), key.client.db, key.name)
  {
    C.Delete(key);
  }

  /** `count(item)`: occurrences of `item` in the decoded snapshot. */
  method Count(key: Key, item: PyValue) returns (r: Result<nat>)
    ensures r.Err? <==> Snapshot(key.client.db, key.name, key.codec).Err?
    ensures r.Err? ==> r.error == TypeError
    ensures r.Ok? ==> r.value == Python.Count(Snapshot(key.client.db, key.name, key.codec).value, item)
  {
    var all := Iter(key);
    if all.Err? {
      return Err(all.error);
    }
    r := Ok(Python.Count(all.value, item));
  }

  /** `pop()`: the right end, decoded; `IndexError` when there is none. A text
      the codec cannot read is `TypeError`, after it has been popped. */
  method Pop(key: Key) returns (r: Result<PyValue>)
    modifies key.client
    ensures ListAt(old(key.client.db), key.name).Err? ==> r == Err(TypeError)
    ensures ListAt(old(key.client.db), key.name).Ok? && ItemsOf(old(key.client.db), key.name) == [] ==>
      r == Err(IndexError)
    ensures ListAt(old(key.client.db), key.name).Err? || ItemsOf(old(key.client.db), key.name) == [] ==>
      key.client.db == old(key.client.db)
    ensures ListAt(old(key.client.db), key.name).Ok? && ItemsOf(old(key.client.db), key.name) != [] ==>
      var xs := ItemsOf(old(key.client.db), key.name);
      r == Read(Package, key.codec, PStr(xs[|xs| - 1])) && ItemsOf(key.client.db, key.name) == xs[..|xs| - 1] &&
      S.SameElsewhere(old(key.client.db), key.client.db, key.name)
  {
    var popped := key.client.Send(RPop(key.client.db, key.name));
    popped := RaiseWhenWrongType(popped);
    if popped.Err? {
      return Err(popped.error);
    }
    r := ReadWire(Package, key.codec, popped.value);
    if r.Err? {
      return;
    }
    if popped.value.Some? {
      WritesWhatItReads(Package, key.codec, popped.value.value);
    }
    if r.value.PNone? {
      return Err(IndexError);
    }
  }

  /** `popleft()`: the left end, decoded; `IndexError` when there is none. */
  method PopLeft(key: Key) returns (r: Result<PyValue>)
    modifies key.client
    ensures ListAt(old(key.client.db), key.name).Err? ==> r == Err(TypeError)
    ensures ListAt(old(key.client.db), key.name).Ok? && ItemsOf(old(key.client.db), key.name) == [] ==>
      r == Err(IndexError)
    ensures ListAt(old(key.client.db), key.name).Err? || ItemsOf(old(key.client.db), key.name) == [] ==>
      key.client.db == old(key.client.db)
    ensures ListAt(old(key.client.db), key.name).Ok? && ItemsOf(old(key.client.db), key.name) != [] ==>
      var xs := ItemsOf(old(key.client.db), key.name);
      r == Read(Package, key.codec, PStr(xs[0])) && ItemsOf(key.client.db, key.name) == xs[1..] &&
      S.SameElsewhere(old(key.client.db), key.client.db, key.name)
  {
    var popped := key.client.Send(LPop(key.client.db, key.name));
    popped := RaiseWhenWrongType(popped);
    if popped.Err? {
      return Err(popped.error);
    }
    r := ReadWire(Package, key.codec, popped.value);
    if r.Err? {
      return;
    }
    if popped.value.Some? {
      WritesWhatItReads(Package, key.codec, popped.value.value);
    }
    if r.value.PNone? {
      return Err(IndexError);
    }
  }

  /** `block_pop(timeout)`, for the moment it is called: what `pop` gives on
      a non-empty deque, `None` on an empty one, the answer of a positive
      timeout that ran out. With timeout 0 the server would wait for a push;
      the model answers `None` there too. */
  method BlockPop(key: Key, timeout: nat := 0) returns (r: Result<PyValue>)
    modifies key.client
    ensures ListAt(old(key.client.db), key.name).Err? ==> r == Err(TypeError)
    ensures ListAt(old(key.client.db), key.name).Ok? && ItemsOf(old(key.client.db), key.name) == [] ==>
      r == Ok(PNone) && key.client.db == old(key.client.db)
    ensures ListAt(old(key.client.db), key.name).Ok? && ItemsOf(old(key.client.db), key.name) != [] ==>
      var xs := ItemsOf(old(key.client.db), key.name);
      r == Read(Package, key.codec, PStr(xs[|xs| - 1])) && ItemsOf(key.client.db, key.name) == xs[..|xs| - 1] &&
      S.SameElsewhere(old(key.client.db), key.client.db, key.name)
  {
    var popped := key.client.Send(RPop(key.client.db, key.name));
    popped := RaiseWhenWrongType(popped);
    if popped.Err? {
      return Err(popped.error);
    }
    if popped.value.None? {
      return Ok(PNone);
    }
    r := ReadWire(Package, key.codec, popped.value);
  }

  /** `block_popleft(timeout)`: the left-end counterpart of `block_pop`. */
  method BlockPopLeft(key: Key, timeout: nat := 0) returns (r: Result<PyValue>)
    modifies key.client
    ensures ListAt(old(key.client.db), key.name).Err? ==> r == Err(TypeError)
    ensures ListAt(old(key.client.db), key.name).Ok? && ItemsOf(old(key.client.db), key.name) == [] ==>
      r == Ok(PNone) && key.client.db == old(key.client.db)
    ensures ListAt(old(key.client.db), key.name).Ok? && ItemsOf(old(key.client.db), key.name) != [] ==>
      var xs := ItemsOf(old(key.client.db), key.name);
      r == Read(Package, key.codec, PStr(xs[0])) && ItemsOf(key.client.db, key.name) == xs[1..] &&
      S.SameElsewhere(old(key.client.db), key.client.db, key.name)
  {
    var popped := key.client.Send(LPop(key.client.db, key.name));
    popped := RaiseWhenWrongType(popped);
    if popped.Err? {
      return Err(popped.error);
    }
    if popped.value.None? {
      return Ok(PNone);
    }
    r := ReadWire(Package, key.codec, popped.value);
  }

  /** `d[i]`: the decoded item at a Python index of the snapshot. */
  method GetAt(key: Key, i: int) returns (r: Result<PyValue>)
    ensures Snapshot(key.client.db, key.name, key.codec).Err? ==> r == Err(TypeError)
    ensures Snapshot(key.client.db, key.name, key.codec).Ok? ==>
      r == Index(Snapshot(key.client.db, key.name, key.codec).value, i)
  {
    var all := Iter(key);
    if all.Err? {
      return Err(all.error);
    }
    r := Index(all.value, i);
  }

  /** `d[start:stop:step]`: the Python slice of the decoded snapshot; out of
      range is `[]` and a zero step is `ValueError`. */
  method GetSlice(key: Key, start: Option<int>, stop: Option<int>, step: Option<int> := None) returns (r: Result<seq<PyValue>>)
    ensures Snapshot(key.client.db, key.name, key.codec).Err? ==> r == Err(TypeError)
    ensures Snapshot(key.client.db, key.name, key.codec).Ok? ==>
      r == StepSlice(Snapshot(key.client.db, key.name, key.codec).value, start, stop, step)
  {
    var all := Iter(key);
    if all.Err? {
      return Err(all.error);
    }
    r := StepSlice(all.value, start, stop, step);
  }

  /** Rewriting a snapshot that was read, changed by removal or by one new
      value the codec writes without loss, reads back as the changed snapshot. */
  lemma RewrittenReadsBack(ws: seq<string>, c: Codec, ys: seq<PyValue>, extra: PyValue)
    requires ReadAll(Package, c, ws).Ok?
    requires forall y :: y in ys ==>
      y in ReadAll(Package, c, ws).value || (y == extra && Write(Package, c, extra).Ok? && Lossless(c, extra))
    ensures WriteAll(Package, c, ys).Ok?
    ensures ReadAll(Package, c, WriteAll(Package, c, ys).value) == Ok(ys)
  {
    ReadAllWritable(Package, c, ws);
    RewriteReadsBack(Package, c, ys);
  }

  /** The write-back shared by `__delitem__` and `__setitem__`: the key is
      deleted and, unless `vals` is empty, extended with `vals`. The key
      stays deleted when the codec refuses one of them. */
  method Replace(key: Key, vals: seq<PyValue>) returns (r: Result<()>)
    modifies key.client
    ensures r.Ok? <==> WriteAll(Package, key.codec, vals).Ok?
    ensures r.Err? ==> r == Err(TypeError) && key.client.db == S.Delete(old(key.client.db), key.name)
    ensures r.Ok? ==>
      ListAt(key.client.db, key.name).Ok? &&
      ItemsOf(key.client.db, key.name) == WriteAll(Package, key.codec, vals).value
    ensures vals == [] ==> key.name !in key.client.db.data
    ensures S.Ttl(key.client.db, key.name) == None
    ensures S.SameElsewhere(old(key.client.db), key.client.db, key.name)
  {
    C.Delete(key);
    if vals == [] {
      return Ok(());
    }
    r := Extend(key, vals);
  }

  /** `del d[index]`, for an index or a slice: the snapshot loses those items,
      the key is deleted and, unless nothing is left, re-extended with the
      rest. The rest is re-encoded, and the deadline is gone. */
  method DelItem(key: Key, sub: Subscript) returns (r: Result<()>)
    modifies key.client
    ensures Snapshot(old(key.client.db), key.name, key.codec).Err? ==> r == Err(TypeError)
    ensures r.Ok? <==>
      Snapshot(old(key.client.db), key.name, key.codec).Ok? &&
      DelSubscript(Snapshot(old(key.client.db), key.name, key.codec).value, sub).Ok?
    ensures Snapshot(old(key.client.db), key.name, key.codec).Ok? && !r.Ok? ==>
      r == Err(if sub.At? then IndexError else ValueError)
    ensures r.Err? ==> key.client.db == old(key.client.db)
    ensures r.Ok? ==> var rest := DelSubscript(Snapshot(old(key.client.db), key.name, key.codec).value, sub).value;
      WriteAll(Package, key.codec, rest).Ok? &&
      ItemsOf(key.client.db, key.name) == WriteAll(Package, key.codec, rest).value &&
      Snapshot(key.client.db, key.name, key.codec) == Ok(rest) &&
      (rest == [] ==> key.name !in key.client.db.data)
    ensures r.Ok? ==> S.Ttl(key.client.db, key.name) == None
    ensures S.SameElsewhere(old(key.client.db), key.client.db, key.name)
  {
    var all := Iter(key);
    if all.Err? {
      return Err(all.error);
    }
    var rest := DelSubscript(all.value, sub);
    if rest.Err? {
      return Err(rest.error);
    }
    RewrittenReadsBack(ItemsOf(key.client.db, key.name), key.codec, rest.value, PNone);
    r := Replace(key, rest.value);
  }

  /** An assignment that Python accepts leaves a non-empty list holding the item. */
  lemma UpdatedNotEmpty(xs: seq<PyValue>, i: int, item: PyValue)
    requires SetIndex(xs, i, item).Ok?
    ensures SetIndex(xs, i, item).value != [] && item in SetIndex(xs, i, item).value
  {
    var j := if i < 0 then |xs| + i else i;
    assert SetIndex(xs, i, item).value[j] == item;
  }

  /** Writing a list that holds `item` fails exactly when `item` cannot be
      written, given that every other member was read from the server. */
  lemma UpdatedWritable(ws: seq<string>, c: Codec, ys: seq<PyValue>, item: PyValue)
    requires ReadAll(Package, c, ws).Ok?
    requires item in ys
    requires forall y :: y in ys ==> y in ReadAll(Package, c, ws).value || y == item
    ensures WriteAll(Package, c, ys).Ok? <==> Write(Package, c, item).Ok?
  {
    ReadAllWritable(Package, c, ws);
    if Write(Package, c, item).Err? {
      var j :| 0 <= j < |ys| && ys[j] == item;
    }
  }

  /** `d[i] = item`, as written: the snapshot gets the new item, the key is
      deleted, and the snapshot is pushed back; only then is the item
      encoded, so an item the codec refuses leaves the key deleted. */
  method SetItem(key: Key, i: int, item: PyValue) returns (r: Result<()>)
    modifies key.client
    ensures Snapshot(old(key.client.db), key.name, key.codec).Err? ==> r == Err(TypeError)
    ensures Snapshot(old(key.client.db), key.name, key.codec).Ok? &&
            SetIndex(Snapshot(old(key.client.db), key.name, key.codec).value, i, item).Err? ==>
      r == Err(IndexError)
    ensures r.Ok? <==>
      Snapshot(old(key.client.db), key.name, key.codec).Ok? &&
      SetIndex(Snapshot(old(key.client.db), key.name, key.codec).value, i, item).Ok? &&
      Write(Package, key.codec, item).Ok?
    ensures Snapshot(old(key.client.db), key.name, key.codec).Err? ||
            SetIndex(Snapshot(old(key.client.db), key.name, key.codec).value, i, item).Err? ==>
      key.client.db == old(key.client.db)
    ensures Snapshot(old(key.client.db), key.name, key.codec).Ok? &&
            SetIndex(Snapshot(old(key.client.db), key.name, key.codec).value, i, item).Ok? &&
            Write(Package, key.codec, item).Err? ==>
      r == Err(TypeError) && key.client.db == S.Delete(old(key.client.db), key.name)
    ensures r.Ok? ==> var updated := SetIndex(Snapshot(old(key.client.db), key.name, key.codec).value, i, item).value;
      ItemsOf(key.client.db, key.name) == WriteAll(Package, key.codec, updated).value &&
      (Lossless(key.codec, item) ==> Snapshot(key.client.db, key.name, key.codec) == Ok(updated))
    ensures r.Ok? ==> S.Ttl(key.client.db, key.name) == None
    ensures S.SameElsewhere(old(key.client.db), key.client.db, key.name)
  {
    var all := Iter(key);
    if all.Err? {
      return Err(all.error);
    }
    var updated := SetIndex(all.value, i, item);
    if updated.Err? {
      return Err(updated.error);
    }
    UpdatedNotEmpty(all.value, i, item);
    UpdatedWritable(ItemsOf(key.client.db, key.name), key.codec, updated.value, item);
    if Write(Package, key.codec, item).Ok? && Lossless(key.codec, item) {
      RewrittenReadsBack(ItemsOf(key.client.db, key.name), key.codec, updated.value, item);
    }
    r := Replace(key, updated.value);
  }

  /** `d[i] = item` encoding the item before anything is deleted: an item the
      codec refuses is `TypeError` and changes nothing. */
  method SetItemCorrected(key: Key, i: int, item: PyValue) returns (r: Result<()>)
    modifies key.client
    ensures r.Err? ==> key.client.db == old(key.client.db)
    ensures Write(Package, key.codec, item).Err? ==> r == Err(TypeError)
    ensures r.Ok? <==>
      Snapshot(old(key.client.db), key.name, key.codec).Ok? &&
      SetIndex(Snapshot(old(key.client.db), key.name, key.codec).value, i, item).Ok? &&
      Write(Package, key.codec, item).Ok?
    ensures r.Ok? && Lossless(key.codec, item) ==>
      Snapshot(key.client.db, key.name, key.codec) ==
      Ok(SetIndex(Snapshot(old(key.client.db), key.name, key.codec).value, i, item).value)
    ensures r.Ok? ==> S.SameElsewhere(old(key.client.db), key.client.db, key.name)
  {
    var encoded := Encode(key.codec, item);
    if encoded.Err? {
      return Err(encoded.error);
    }
    r := SetItem(key, i, item);
  }

  /** With the string codec, `del d[index]` leaves exactly Python's `del` on
      the stored texts. */
  lemma StringDelItem(ws: seq<string>, sub: Subscript)
    requires DelSubscript(ws, sub).Ok?
    ensures ReadAll(Package, String, ws).Ok?
    ensures var vals := ReadAll(Package, String, ws).value;
      DelSubscript(vals, sub).Ok? &&
      WriteAll(Package, String, DelSubscript(vals, sub).value) == Ok(DelSubscript(ws, sub).value)
  {
    StringRewritesTexts(Package, ws);
    var vals := ReadAll(Package, String, ws).value;
    assert forall j :: 0 <= j < |ws| ==> vals[j] == PStr(ws[j]);
    var rest := DelSubscript(ws, sub).value;
    var restVals := DelSubscript(vals, sub).value;
    DelSubscriptCommutes(ws, vals, sub);
    assert forall j :: 0 <= j < |rest| ==> restVals[j] == PStr(rest[j]);
    assert WriteAll(Package, String, restVals).value == rest;
  }

  /** Deleting the same positions from two lists of equal length deletes
      corresponding items. */
  lemma DelSubscriptCommutes(ws: seq<string>, vals: seq<PyValue>, sub: Subscript)
    requires |vals| == |ws| && forall j :: 0 <= j < |ws| ==> vals[j] == PStr(ws[j])
    requires DelSubscript(ws, sub).Ok?
    ensures DelSubscript(vals, sub).Ok?
    ensures var rest := DelSubscript(ws, sub).value; var restVals := DelSubscript(vals, sub).value;
      |restVals| == |rest| && forall j :: 0 <= j < |rest| ==> restVals[j] == PStr(rest[j])
  {
    if Stepped(sub) {
      var k := sub.step.value;
      var (lo, hi) := StepRange(|ws|, sub.start, sub.stop, k);
      KeepUnlessCommutes(ws, vals, lo, k, StepCount(lo, hi, k));
    }
  }

  /** Keeping the same positions of two lists of equal length keeps
      corresponding items. */
  lemma {:induction false} KeepUnlessCommutes(ws: seq<string>, vals: seq<PyValue>, lo: int, k: int, count: nat)
    requires k != 0 && |vals| == |ws| && forall j :: 0 <= j < |ws| ==> vals[j] == PStr(ws[j])
    ensures var kept := KeepUnless(ws, lo, k, count); var keptVals := KeepUnless(vals, lo, k, count);
      |keptVals| == |kept| && forall j :: 0 <= j < |kept| ==> keptVals[j] == PStr(kept[j])
    decreases |ws|
  {
    if ws != [] {
      var last := |ws| - 1;
      assert forall j :: 0 <= j < last ==> vals[..last][j] == PStr(ws[..last][j]);
      KeepUnlessCommutes(ws[..last], vals[..last], lo, k, count);
      var front := KeepUnless(ws[..last], lo, k, count);
      var frontVals := KeepUnless(vals[..last], lo, k, count);
      var on := OnStride(last, lo, k, count);
      var tail: seq<string> := if on then [] else [ws[last]];
      var tailVals: seq<PyValue> := if on then [] else [vals[last]];
      assert KeepUnless(ws, lo, k, count) == front + tail;
      assert KeepUnless(vals, lo, k, count) == frontVals + tailVals;
      assert |tailVals| == |tail| && forall j :: 0 <= j < |tail| ==> tailVals[j] == PStr(tail[j]);
      forall j | 0 <= j < |front| + |tail|
        ensures (frontVals + tailVals)[j] == PStr((front + tail)[j])
      {
        if j < |front| {
          assert (frontVals + tailVals)[j] == frontVals[j] && (front + tail)[j] == front[j];
        } else {
          assert (frontVals + tailVals)[j] == tailVals[j - |front|] && (front + tail)[j] == tail[j - |front|];
        }
      }
    }
  }
}
