/**
 * `SortedSet` of the second generation: a server sorted set whose members go
 * through `encode` / `decode`. Every read and write is one server command;
 * a wrong-type reply and a member the codec cannot handle are both
 * `TypeError`, and a missing member is `None` rather than an error.
 */
module KeySortedSet {
  import opened Python
  import opened Wire
  import opened Const
  import S = Store
  import opened ZOrder
  import opened ListCommands
  import opened ZSetCommands
  import opened RedisClient
  import opened Codec
  import opened KeyHelper
  import opened BaseKey
  import opened SortedSetIndexing

  /** The text a member is stored under. */
  function TextOf(c: Codec, v: PyValue): string
    requires Write(Package, c, v).Ok?
  {
    Str(Write(Package, c, v).value)
  }

  /** `__len__`: the number of members, 0 for an absent key. */
  method Len(key: Key) returns (r: Result<nat>)
    requires S.Valid(key.client.db)
    ensures r.Err? <==> ZSetAt(key.client.db, key.name).Err?
    ensures r.Err? ==> r.error == TypeError
    ensures r.Ok? ==> r.value == |Members(EntriesOf(key.client.db, key.name))|
    ensures key.name !in key.client.db.data ==> r == Ok(0)
  {
    r := RaiseWhenWrongType(ZCard(key.client.db, key.name));
  }

  /** `element in s`: whether the element's text has a score. */
  method Contains(key: Key, element: PyValue) returns (r: Result<bool>)
    requires S.Valid(key.client.db)
    ensures Write(Package, key.codec, element).Err? ==> r == Err(TypeError)
    ensures Write(Package, key.codec, element).Ok? && ZSetAt(key.client.db, key.name).Err? ==> r == Err(TypeError)
    ensures r.Ok? <==> Write(Package, key.codec, element).Ok? && ZSetAt(key.client.db, key.name).Ok?
    ensures r.Ok? ==> (r.value <==> TextOf(key.codec, element) in Members(EntriesOf(key.client.db, key.name)))
  {
    var text := Write(Package, key.codec, element);
    if text.Err? {
      WriteFailsWith(Package, key.codec, element);
      return Err(text.error);
    }
    var score := RaiseWhenWrongType(ZScore(key.client.db, key.name, Str(text.value)));
    if score.Err? {
      return Err(score.error);
    }
    r := Ok(score.value.Some?);
  }

  /** `s[member] = score`: the member's text now has that score, added if it
      was new; every other member keeps its score. */
  method SetItem(key: Key, member: PyValue, score: int) returns (r: Result<()>)
    requires S.Valid(key.client.db)
    modifies key.client
    ensures Write(Package, key.codec, member).Err? ==> r == Err(TypeError)
    ensures Write(Package, key.codec, member).Ok? && ZSetAt(old(key.client.db), key.name).Err? ==> r == Err(TypeError)
    ensures r.Ok? <==> Write(Package, key.codec, member).Ok? && ZSetAt(old(key.client.db), key.name).Ok?
    ensures r.Err? ==> key.client.db == old(key.client.db)
    ensures r.Ok? ==> ScoreOf(EntriesOf(key.client.db, key.name), TextOf(key.codec, member)) == Some(score)
    ensures r.Ok? ==>
      Members(EntriesOf(key.client.db, key.name)) ==
      Members(EntriesOf(old(key.client.db), key.name)) + {TextOf(key.codec, member)}
    ensures r.Ok? ==> forall n :: n != TextOf(key.codec, member) ==>
      ScoreOf(EntriesOf(key.client.db, key.name), n) == ScoreOf(EntriesOf(old(key.client.db), key.name), n)
    ensures r.Ok? ==> S.SameElsewhere(old(key.client.db), key.client.db, key.name)
    ensures S.Valid(key.client.db)
  {
    var text := Write(Package, key.codec, member);
    if text.Err? {
      WriteFailsWith(Package, key.codec, member);
      return Err(text.error);
    }
    var added := key.client.Send(ZAdd(key.client.db, key.name, Str(text.value), score));
    added := RaiseWhenWrongType(added);
    if added.Err? {
      return Err(added.error);
    }
    r := Ok(());
  }

  /** `s[index]`: ZRANGE of `index..index`, whose one entry, if any, becomes
      a dict. That entry is Python's `listing[index]`; when there is none
      the empty result's `[0]` raises `IndexError`. */
  method GetAt(key: Key, index: int) returns (r: Result<Item>)
    ensures ZSetAt(key.client.db, key.name).Err? ==> r == Err(TypeError)
    ensures ZSetAt(key.client.db, key.name).Ok? && Index(EntriesOf(key.client.db, key.name), index).Err? ==>
      r == Err(IndexError)
    ensures ZSetAt(key.client.db, key.name).Ok? && Index(EntriesOf(key.client.db, key.name), index).Ok? ==>
      r == ItemOf(Package, key.codec, Index(EntriesOf(key.client.db, key.name), index).value)
  {
    var entries := RaiseWhenWrongType(ZRange(key.client.db, key.name, index, index));
    if entries.Err? {
      return Err(entries.error);
    }
    IndexWindow(EntriesOf(key.client.db, key.name), index);
    var items := Items(Package, key.codec, entries.value);
    if items.Err? {
      ItemsOfOne(Package, key.codec, entries.value[0]);
      return Err(items.error);
    }
    if items.value == [] {
      return Err(IndexError);
    }
    ItemsOfOne(Package, key.codec, entries.value[0]);
    r := Ok(items.value[0]);
  }

  /** `s[start:stop:step]`: the Python slice of the whole listing, as
      dicts, in ascending score order for a positive step and descending for
      a negative one; a zero step is Python's `ValueError`. */
  method GetSlice(key: Key, start: Option<int>, stop: Option<int>, step: Option<int> := None) returns (r: Result<seq<Item>>)
    requires S.Valid(key.client.db)
    ensures ZSetAt(key.client.db, key.name).Err? ==> r == Err(TypeError)
    ensures ZSetAt(key.client.db, key.name).Ok? && step == Some(0) ==> r == Err(ValueError)
    ensures ZSetAt(key.client.db, key.name).Ok? && step != Some(0) ==>
      r == Items(Package, key.codec, StepSlice(EntriesOf(key.client.db, key.name), start, stop, step).value)
    ensures r.Ok? && (step.None? || step.value > 0) ==>
      forall i, j :: 0 <= i < j < |r.value| ==> r.value[i].score <= r.value[j].score
    ensures r.Ok? && step.Some? && step.value < 0 ==>
      forall i, j :: 0 <= i < j < |r.value| ==> r.value[j].score <= r.value[i].score
  {
    var entries := RaiseWhenWrongType(ZRange(key.client.db, key.name, Leftmost, Rightmost));
    if entries.Err? {
      return Err(entries.error);
    }
    WindowWhole(|EntriesOf(key.client.db, key.name)|);
    assert entries.value == EntriesOf(key.client.db, key.name);
    var part := StepSlice(entries.value, start, stop, step);
    if part.Err? {
      return Err(part.error);
    }
    StepSliceOrdered(entries.value, start, stop, step);
    r := Items(Package, key.codec, part.value);
  }

  /** `del s[index]`, as written: ZREMRANGEBYRANK of `index..index`, an
      `IndexError` when it removed nothing; a slice sends the range
      `RankRange` computes from it. */
  method DelItem(key: Key, sub: Subscript) returns (r: Result<()>)
    requires S.Valid(key.client.db)
    modifies key.client
    ensures ZSetAt(old(key.client.db), key.name).Err? ==> r == Err(TypeError) && key.client.db == old(key.client.db)
    ensures ZSetAt(old(key.client.db), key.name).Ok? && sub.At? ==>
      (r.Ok? <==> DelSubscript(EntriesOf(old(key.client.db), key.name), sub).Ok?)
    ensures ZSetAt(old(key.client.db), key.name).Ok? && sub.Range? ==> r.Ok?
    ensures ZSetAt(old(key.client.db), key.name).Ok? && r.Err? ==>
      r.error == IndexError && EntriesOf(key.client.db, key.name) == EntriesOf(old(key.client.db), key.name)
    ensures r.Ok? && sub.At? ==>
      EntriesOf(key.client.db, key.name) == DelSubscript(EntriesOf(old(key.client.db), key.name), sub).value
    ensures r.Ok? && sub.Range? ==>
      EntriesOf(key.client.db, key.name) == Cut(EntriesOf(old(key.client.db), key.name), RankRange(sub.start, sub.stop))
    ensures ZSetAt(old(key.client.db), key.name).Ok? ==> S.SameElsewhere(old(key.client.db), key.client.db, key.name)
    ensures S.Valid(key.client.db)
  {
    var es := EntriesOf(key.client.db, key.name);
    match sub
    case Range(start, stop, _) =>
      var range := RankRange(start, stop);
      var removed := key.client.Send(ZRemRangeByRank(key.client.db, key.name, range.0, range.1));
      removed := RaiseWhenWrongType(removed);
      if removed.Err? {
        return Err(removed.error);
      }
      r := Ok(());
    case At(i) =>
      var removed := key.client.Send(ZRemRangeByRank(key.client.db, key.name, i, i));
      removed := RaiseWhenWrongType(removed);
      if removed.Err? {
        return Err(removed.error);
      }
      WindowOfIndex(|es|, i);
      if removed.value == 0 {
        return Err(IndexError);
      }
      IndexCut(es, i);
      r := Ok(());
  }

  /** `del s[key]` with the corrected range: what is left is always Python's
      `del` on the listing; a slice with a step other than 1 is refused with
      `NotImplementedError`, as no single rank range removes it. */
  method DelItemCorrected(key: Key, sub: Subscript) returns (r: Result<()>)
    requires S.Valid(key.client.db)
    modifies key.client
    ensures Stepped(sub) ==> r == Err(NotImplementedError) && key.client.db == old(key.client.db)
    ensures !Stepped(sub) && ZSetAt(old(key.client.db), key.name).Err? ==>
      r == Err(TypeError) && key.client.db == old(key.client.db)
    ensures !Stepped(sub) && ZSetAt(old(key.client.db), key.name).Ok? ==>
      (r.Ok? <==> DelSubscript(EntriesOf(old(key.client.db), key.name), sub).Ok?)
    ensures !Stepped(sub) && ZSetAt(old(key.client.db), key.name).Ok? && r.Err? ==>
      r.error == IndexError && EntriesOf(key.client.db, key.name) == EntriesOf(old(key.client.db), key.name)
    ensures r.Ok? ==>
      EntriesOf(key.client.db, key.name) == DelSubscript(EntriesOf(old(key.client.db), key.name), sub).value
    ensures ZSetAt(old(key.client.db), key.name).Ok? ==> S.SameElsewhere(old(key.client.db), key.client.db, key.name)
    ensures S.Valid(key.client.db)
  {
    var es := EntriesOf(key.client.db, key.name);
    match sub
    case Range(start, stop, step) =>
      if !UnitStep(step) {
        return Err(NotImplementedError);
      }
      var range := RankRangeCorrected(start, stop);
      var removed := key.client.Send(ZRemRangeByRank(key.client.db, key.name, range.0, range.1));
      removed := RaiseWhenWrongType(removed);
      if removed.Err? {
        return Err(removed.error);
      }
      RankRangeCorrectedDeletes(es, start, stop);
      assert DelSubscript(es, sub) == DelSubscript(es, Range(start, stop, None));
      r := Ok(());
    case At(i) =>
      r := DelItem(key, sub);
  }

  /** `remove(member)`: the member is gone; a non-member is no error. */
  method Remove(key: Key, member: PyValue) returns (r: Result<()>)
    requires S.Valid(key.client.db)
    modifies key.client
    ensures r.Err? <==> Write(Package, key.codec, member).Err? || ZSetAt(old(key.client.db), key.name).Err?
    ensures r.Err? ==> r == Err(TypeError) && key.client.db == old(key.client.db)
    ensures r.Ok? ==> forall x ::
      x in EntriesOf(key.client.db, key.name) <==>
      x in EntriesOf(old(key.client.db), key.name) && x.member != TextOf(key.codec, member)
    ensures r.Ok? ==> S.SameElsewhere(old(key.client.db), key.client.db, key.name)
    ensures S.Valid(key.client.db)
  {
    var text := Write(Package, key.codec, member);
    if text.Err? {
      WriteFailsWith(Package, key.codec, member);
      return Err(text.error);
    }
    var removed := key.client.Send(ZRem(key.client.db, key.name, Str(text.value)));
    removed := RaiseWhenWrongType(removed);
    if removed.Err? {
      return Err(removed.error);
    }
    r := Ok(());
  }

  /** `rank(member)`: the member's position in ascending score order, `None`
      for a non-member. */
  method Rank(key: Key, member: PyValue) returns (r: Result<Option<nat>>)
    requires S.Valid(key.client.db)
    ensures r.Err? <==> Write(Package, key.codec, member).Err? || ZSetAt(key.client.db, key.name).Err?
    ensures r.Err? ==> r.error == TypeError
    ensures r.Ok? ==> (r.value.None? <==> TextOf(key.codec, member) !in Members(EntriesOf(key.client.db, key.name)))
    ensures r.Ok? && r.value.Some? ==> r.value.value < |EntriesOf(key.client.db, key.name)|
    ensures r.Ok? && r.value.Some? ==> EntriesOf(key.client.db, key.name)[r.value.value].member == TextOf(key.codec, member)
    ensures r.Ok? && r.value.Some? ==> RankOf(EntriesOf(key.client.db, key.name), r.value.value)
  {
    var text := Write(Package, key.codec, member);
    if text.Err? {
      WriteFailsWith(Package, key.codec, member);
      return Err(text.error);
    }
    r := RaiseWhenWrongType(ZRank(key.client.db, key.name, Str(text.value)));
  }

  /** `reverse_rank(member)`: the member's position in descending score
      order, `None` for a non-member. */
  method ReverseRank(key: Key, member: PyValue) returns (r: Result<Option<nat>>)
    requires S.Valid(key.client.db)
    ensures r.Err? <==> Write(Package, key.codec, member).Err? || ZSetAt(key.client.db, key.name).Err?
    ensures r.Err? ==> r.error == TypeError
    ensures r.Ok? ==> (r.value.None? <==> TextOf(key.codec, member) !in Members(EntriesOf(key.client.db, key.name)))
    ensures r.Ok? && r.value.Some? ==> ReverseRankOf(EntriesOf(key.client.db, key.name), r.value.value, TextOf(key.codec, member))
  {
    var text := Write(Package, key.codec, member);
    if text.Err? {
      WriteFailsWith(Package, key.codec, member);
      return Err(text.error);
    }
    var t := Str(text.value);
    assert t == TextOf(key.codec, member);
    r := RaiseWhenWrongType(ZRevRank(key.client.db, key.name, t));
  }

  /** `score(member)`: the member's score, `None` for a non-member. */
  method Score(key: Key, member: PyValue) returns (r: Result<Option<int>>)
    requires S.Valid(key.client.db)
    ensures r.Err? <==> Write(Package, key.codec, member).Err? || ZSetAt(key.client.db, key.name).Err?
    ensures r.Err? ==> r.error == TypeError
    ensures r.Ok? ==> (r.value.None? <==> TextOf(key.codec, member) !in Members(EntriesOf(key.client.db, key.name)))
    ensures r.Ok? ==> forall s :: r.value == Some(s) <==> Entry(TextOf(key.codec, member), s) in EntriesOf(key.client.db, key.name)
  {
    var text := Write(Package, key.codec, member);
    if text.Err? {
      WriteFailsWith(Package, key.codec, member);
      return Err(text.error);
    }
    r := RaiseWhenWrongType(ZScore(key.client.db, key.name, Str(text.value)));
  }

  /** `incr(member, increment)`: ZINCRBY; a new member starts from 0. The
      reply is the new score. */
  method Incr(key: Key, member: PyValue, increment: int := DefaultIncrement) returns (r: Result<int>)
    requires S.Valid(key.client.db)
    modifies key.client
    ensures Write(Package, key.codec, member).Err? ==> r == Err(TypeError)
    ensures Write(Package, key.codec, member).Ok? && ZSetAt(old(key.client.db), key.name).Err? ==> r == Err(TypeError)
    ensures r.Ok? <==> Write(Package, key.codec, member).Ok? && ZSetAt(old(key.client.db), key.name).Ok?
    ensures r.Err? ==> key.client.db == old(key.client.db)
    ensures r.Ok? ==>
      r.value == (match ScoreOf(EntriesOf(old(key.client.db), key.name), TextOf(key.codec, member))
                  case Some(s) => s case None => 0) + increment
    ensures r.Ok? ==> ScoreOf(EntriesOf(key.client.db, key.name), TextOf(key.codec, member)) == Some(r.value)
    ensures r.Ok? ==>
      Members(EntriesOf(key.client.db, key.name)) ==
      Members(EntriesOf(old(key.client.db), key.name)) + {TextOf(key.codec, member)}
    ensures r.Ok? ==> forall n :: n != TextOf(key.codec, member) ==>
      ScoreOf(EntriesOf(key.client.db, key.name), n) == ScoreOf(EntriesOf(old(key.client.db), key.name), n)
    ensures r.Ok? ==> S.SameElsewhere(old(key.client.db), key.client.db, key.name)
    ensures S.Valid(key.client.db)
  {
    var text := Write(Package, key.codec, member);
    if text.Err? {
      WriteFailsWith(Package, key.codec, member);
      return Err(text.error);
    }
    r := key.client.Send(ZIncrBy(key.client.db, key.name, Str(text.value), increment));
    r := RaiseWhenWrongType(r);
  }

  /** `decr(member, decrement)` is `incr(member, 0 - decrement)`. */
  method Decr(key: Key, member: PyValue, decrement: int := DefaultDecrement) returns (r: Result<int>)
    requires S.Valid(key.client.db)
    modifies key.client
    ensures Write(Package, key.codec, member).Err? ==> r == Err(TypeError)
    ensures Write(Package, key.codec, member).Ok? && ZSetAt(old(key.client.db), key.name).Err? ==> r == Err(TypeError)
    ensures r.Ok? <==> Write(Package, key.codec, member).Ok? && ZSetAt(old(key.client.db), key.name).Ok?
    ensures r.Err? ==> key.client.db == old(key.client.db)
    ensures r.Ok? ==>
      r.value == (match ScoreOf(EntriesOf(old(key.client.db), key.name), TextOf(key.codec, member))
                  case Some(s) => s case None => 0) - decrement
    ensures r.Ok? ==> ScoreOf(EntriesOf(key.client.db, key.name), TextOf(key.codec, member)) == Some(r.value)
    ensures r.Ok? ==> forall n :: n != TextOf(key.codec, member) ==>
      ScoreOf(EntriesOf(key.client.db, key.name), n) == ScoreOf(EntriesOf(old(key.client.db), key.name), n)
    ensures r.Ok? ==> S.SameElsewhere(old(key.client.db), key.client.db, key.name)
    ensures S.Valid(key.client.db)
  {
    r := Incr(key, member, 0 - decrement);
  }
}
