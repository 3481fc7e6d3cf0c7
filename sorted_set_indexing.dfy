/**
 * What both generations of `SortedSet` do with Python subscripts: `s[i]`
 * and `s[a:b]` hand out `{value, score}` dicts built from ZRANGE, and
 * `del s[i]` / `del s[a:b]` become one ZREMRANGEBYRANK whose inclusive rank
 * range is computed from the subscript.
 */
module SortedSetIndexing {
  import opened Python
  import opened Wire
  import opened ZOrder
  import opened Codec
  import opened ListCommands
  import opened Const
  import S = Store
  import opened ZSetCommands

  /** The dict `{value, score}` for one entry. */
  datatype Item = Item(value: PyValue, score: int)

  /** The members of some entries, in rank order. */
  function MemberTexts(es: seq<Entry>): (r: seq<string>)
    ensures |r| == |es|
    ensures forall i :: 0 <= i < |es| ==> r[i] == es[i].member
  {
    seq(|es|, i requires 0 <= i < |es| => es[i].member)
  }

  /** The dicts for some entries: each member read by the codec, beside its
      score; the codec's error when some member cannot be read. */
  function Items(g: Generation, c: Codec, es: seq<Entry>): (r: Result<seq<Item>>)
    ensures r.Ok? <==> forall i :: 0 <= i < |es| ==> Read(g, c, PStr(es[i].member)).Ok?
    ensures r.Ok? ==> |r.value| == |es|
    ensures r.Ok? ==> forall i :: 0 <= i < |es| ==> r.value[i] == Item(Read(g, c, PStr(es[i].member)).value, es[i].score)
    ensures r.Err? ==> r.error == CodecError(g)
    ensures es == [] ==> r == Ok([])
  {
    var vs :- ReadAll(g, c, MemberTexts(es));
    Ok(seq(|es|, i requires 0 <= i < |es| => Item(vs[i], es[i].score)))
  }

  /** The dict for one entry. */
  function ItemOf(g: Generation, c: Codec, e: Entry): (r: Result<Item>)
    ensures r.Ok? <==> Read(g, c, PStr(e.member)).Ok?
    ensures r.Ok? ==> r.value == Item(Read(g, c, PStr(e.member)).value, e.score)
    ensures r.Err? ==> r.error == CodecError(g)
  {
    ReadTextFailsWith(g, c, e.member);
    var v :- Read(g, c, PStr(e.member));
    Ok(Item(v, e.score))
  }

  /** The dicts of a one-entry listing are the entry's dict. */
  lemma ItemsOfOne(g: Generation, c: Codec, e: Entry)
    ensures ItemOf(g, c, e).Ok? <==> Items(g, c, [e]).Ok?
    ensures ItemOf(g, c, e).Ok? ==> Items(g, c, [e]).value == [ItemOf(g, c, e).value]
  {
    if ItemOf(g, c, e).Ok? {
      assert Items(g, c, [e]).value[0] == ItemOf(g, c, e).value;
    }
  }

  /** A member written by the codec reads back as the value it was written
      from, so its dict holds that value. */
  lemma ItemOfWritten(g: Generation, c: Codec, v: PyValue, s: int)
    requires Write(g, c, v).Ok? && Lossless(c, v)
    ensures Items(g, c, [Entry(Str(Write(g, c, v).value), s)]) == Ok([Item(v, s)])
  {
    RoundTrip(g, c, v);
    var r := Items(g, c, [Entry(Str(Write(g, c, v).value), s)]);
    assert r.Ok? && |r.value| == 1 && r.value[0] == Item(v, s);
    assert r.value == [Item(v, s)];
  }

  /** The window of the one-rank range `i..i` is the one element Python's
      `s[i]` names, and empty exactly when `s[i]` is out of range. */
  lemma WindowOfIndex(n: nat, i: int)
    ensures var w := Window(n, i, i); (w.0 < w.1 <==> -(n as int) <= i < n)
    ensures -(n as int) <= i < n ==> Window(n, i, i) == (if i < 0 then n + i else i, (if i < 0 then n + i else i) + 1)
  {
  }

  /** The window of `a..-1` is Python's `[a:]`. */
  lemma WindowFrom(n: nat, a: int)
    ensures var lo := SliceBound(Some(a), n, 0);
      Window(n, a, Rightmost) == if lo < n then (lo, n) else (0, 0)
  {
  }

  /** What ZREMRANGEBYRANK leaves of a listing for an inclusive rank range. */
  function Cut(es: seq<Entry>, range: (int, int)): (r: seq<Entry>)
    ensures |r| <= |es|
  {
    var w := Window(|es|, range.0, range.1);
    es[..w.0] + es[w.1..]
  }

  /** ZRANGE of `i..i` holds Python's `s[i]`, or nothing when that is out of range. */
  lemma IndexWindow(es: seq<Entry>, i: int)
    ensures var w := Window(|es|, i, i);
      Index(es, i).Ok? <==> w.0 < w.1
    ensures Index(es, i).Ok? ==> var w := Window(|es|, i, i); es[w.0..w.1] == [Index(es, i).value]
  {
    WindowOfIndex(|es|, i);
  }

  /** The rank `i..i` removes exactly Python's `del s[i]`, when that is in range. */
  lemma IndexCut(es: seq<Entry>, i: int)
    requires -|es| <= i < |es|
    ensures DelSubscript(es, At(i)).Ok? && Cut(es, (i, i)) == DelSubscript(es, At(i)).value
  {
    WindowOfIndex(|es|, i);
  }

  /** The inclusive rank range `__delitem__` sends for `del s[start:stop]`,
      as written: a missing start is 0, a missing stop is -1, any other stop
      is `stop - 1`. */
  function RankRange(start: Option<int>, stop: Option<int>): (r: (int, int))
    ensures start.Some? ==> r.0 == start.value
    ensures stop.Some? ==> r.1 == stop.value - 1
  {
    (if start.None? then Leftmost else start.value, if stop.None? then Rightmost else stop.value - 1)
  }

  /** For every stop but 0, the range as written removes exactly the entries
      Python's `del` on the slice removes. */
  lemma RankRangeDeletes(es: seq<Entry>, start: Option<int>, stop: Option<int>)
    requires stop != Some(0)
    ensures DelSubscript(es, Range(start, stop, None)).Ok?
    ensures Cut(es, RankRange(start, stop)) == DelSubscript(es, Range(start, stop, None)).value
  {
    var n := |es|;
    var a := RankRange(start, stop).0;
    assert SliceBound(start, n, 0) == SliceBound(Some(a), n, 0);
    match stop
    case None =>
      WindowFrom(n, a);
    case Some(b) =>
      WindowOfSlice(n, a, b);
  }

  /** `del s[:0]` as written empties a non-empty sorted set: the stop becomes
      -1, the last rank, where Python's `del` of the slice removes nothing. */
  lemma StopZeroRemovesAll(es: seq<Entry>)
    requires es != []
    ensures Cut(es, RankRange(None, Some(0))) == []
    ensures DelSubscript(es, Range(None, Some(0), None)) == Ok(es)
  {
    assert Window(|es|, Leftmost, 0 - 1) == (0, |es|);
  }

  /** The range `__delitem__` evidently means to send: a stop of 0 becomes
      the empty range 1..0. */
  function RankRangeCorrected(start: Option<int>, stop: Option<int>): (r: (int, int))
    ensures stop != Some(0) ==> r == RankRange(start, stop)
  {
    if stop == Some(0) then (1, 0) else RankRange(start, stop)
  }

  /** The corrected range removes exactly Python's `del` on every slice. */
  lemma RankRangeCorrectedDeletes(es: seq<Entry>, start: Option<int>, stop: Option<int>)
    ensures DelSubscript(es, Range(start, stop, None)).Ok?
    ensures Cut(es, RankRangeCorrected(start, stop)) == DelSubscript(es, Range(start, stop, None)).value
  {
    if stop == Some(0) {
      assert Window(|es|, 1, 0) == (0, 0);
      assert SliceBound(Some(0), |es|, |es|) == 0;
    } else {
      RankRangeDeletes(es, start, stop);
    }
  }

  /** A slice of a ranked listing is ranked. */
  lemma SliceRanked(es: seq<Entry>, start: Option<int>, stop: Option<int>)
    requires Ranked(es)
    ensures Ranked(Slice(es, start, stop))
  {
    var a := SliceBound(start, |es|, 0);
    var b := SliceBound(stop, |es|, |es|);
    if a < b {
      assert forall i :: 0 <= i < b - a ==> es[a..b][i] == es[a + i];
    }
  }

  /** A stepped slice of a ranked listing runs up the ranking for a positive
      step and down it for a negative one. */
  lemma StepSliceOrdered(es: seq<Entry>, start: Option<int>, stop: Option<int>, step: Option<int>)
    requires Ranked(es) && step != Some(0)
    ensures var part := StepSlice(es, start, stop, step).value;
      (step.None? || step.value > 0 ==> Ranked(part)) &&
      (step.Some? && step.value < 0 ==> forall i, j :: 0 <= i < j < |part| ==> Precedes(part[j], part[i]))
  {
    if UnitStep(step) {
      SliceRanked(es, start, stop);
    } else {
      var k := step.value;
      var (lo, hi) := StepRange(|es|, start, stop, k);
      assert StepSlice(es, start, stop, step).value == Stride(es, lo, k, StepCount(lo, hi, k));
      if k > 0 {
        StrideUp(es, lo, k, StepCount(lo, hi, k));
      } else {
        StrideDown(es, lo, k, StepCount(lo, hi, k));
      }
    }
  }

  /** Steps of a positive length go up a ranked listing. */
  lemma StrideUp(es: seq<Entry>, lo: int, k: int, count: nat)
    requires Ranked(es) && k > 0
    ensures Ranked(Stride(es, lo, k, count))
  {
    var part := Stride(es, lo, k, count);
    StrideAt(es, lo, k, count);
    forall i, j | 0 <= i < j < |part|
      ensures Precedes(part[i], part[j]) && part[i].member != part[j].member
    {
      StepsApart(i, j, k);
    }
  }

  /** Steps of a negative length go down a ranked listing. */
  lemma StrideDown(es: seq<Entry>, lo: int, k: int, count: nat)
    requires Ranked(es) && k < 0
    ensures var part := Stride(es, lo, k, count);
      forall i, j :: 0 <= i < j < |part| ==> Precedes(part[j], part[i])
  {
    var part := Stride(es, lo, k, count);
    StrideAt(es, lo, k, count);
    forall i, j | 0 <= i < j < |part|
      ensures Precedes(part[j], part[i])
    {
      StepsApart(i, j, -k);
      assert j * k == -(j * -k) && i * k == -(i * -k);
    }
  }

  lemma StepsApart(i: int, j: int, k: int)
    requires i < j && k > 0
    ensures i * k < j * k
  {
    assert j * k - i * k == (j - i) * k;
  }

  /** `del s[::2]` as written removes every entry of a listing of two or
      more: the step is dropped, so the rank range is the whole listing,
      where Python's `del` keeps every second entry, the one at 1 among them. */
  lemma StepIgnored(es: seq<Entry>)
    requires |es| >= 2
    ensures Cut(es, RankRange(None, None)) == []
    ensures DelSubscript(es, Range(None, None, Some(2))).Ok?
    ensures es[1] in DelSubscript(es, Range(None, None, Some(2))).value
  {
    assert Window(|es|, Leftmost, Rightmost) == (0, |es|);
    assert !OnStride(1, 0, 2, StepCount(0, |es|, 2));
  }

  /** `s[v] = score`, then `s[s.rank(v)]`: the member written for `v` is
      listed with that score, and its dict reads back as `v` itself. */
  lemma AssignThenRead(st: S.Store, k: string, g: Generation, c: Codec, v: PyValue, s: int)
    requires S.Valid(st) && ZSetAt(st, k).Ok?
    requires Write(g, c, v).Ok? && Lossless(c, v)
    ensures var t := Str(Write(g, c, v).value); var after := ZAdd(st, k, t, s).value.after;
      ZScore(after, k, t) == Ok(Some(s)) &&
      var i := ZRank(after, k, t).value.value;
      ItemOf(g, c, EntriesOf(after, k)[i]) == Ok(Item(v, s))
  {
    var t := Str(Write(g, c, v).value);
    var after := ZAdd(st, k, t, s).value.after;
    var es := EntriesOf(after, k);
    var i := ZRank(after, k, t).value.value;
    ScoreOfListed(es, t, s);
    assert es[i] == Entry(t, s) by {
      ScoreOfListed(es, t, es[i].score);
    }
    RoundTrip(g, c, v);
  }
}
