/**
 * The list commands of the server. Positions may be negative (counted from
 * the tail), and the ranges of LRANGE and LTRIM are inclusive at both ends.
 */
module ListCommands {
  import opened Python
  import opened Const
  import opened Store

  /** The list stored at `k`; an absent key reads as the empty list. */
  function ListAt(st: Store, k: string): (r: Result<seq<string>>)
    ensures r.Err? <==> k in st.data && !st.data[k].List?
    ensures r.Err? ==> r.error == WrongTypeError
    ensures r.Ok? && k in st.data ==> r.value == st.data[k].items
    ensures k !in st.data ==> r == Ok([])
  {
    if k !in st.data then Ok([])
    else match st.data[k]
      case List(items) => Ok(items)
      case _ => Err(WrongTypeError)
  }

  /** The elements, empty when the key is absent or holds something else. */
  function ItemsOf(st: Store, k: string): seq<string> {
    if ListAt(st, k).Ok? then ListAt(st, k).value else []
  }

  /** The half-open window `[lo, hi)` that the inclusive range `start..stop`
      selects in a sequence of length `n`. */
  function Window(n: nat, start: int, stop: int): (w: (nat, nat))
    ensures w.0 <= w.1 <= n
  {
    var a := if start < 0 then start + n else start;
    var b := if stop < 0 then stop + n else stop;
    var a' := if a < 0 then 0 else a;
    if a' > b || a' >= n then (0, 0)
    else (a', if b >= n then n else b + 1)
  }

  /** `LEFTMOST..RIGHTMOST` covers everything. */
  lemma WindowWhole(n: nat)
    ensures Window(n, Leftmost, Rightmost) == (0, n)
  {
  }

  /** The Python slice `[a:b]` is the inclusive range `a..b-1`, provided the
      stop is not 0: then `b - 1` is -1, which names the last element. */
  lemma WindowOfSlice(n: nat, a: int, b: int)
    requires b != 0
    ensures var lo := SliceBound(Some(a), n, 0); var hi := SliceBound(Some(b), n, n);
      Window(n, a, b - 1) == if lo < hi then (lo, hi) else (0, 0)
  {
  }

  /** The window of `a..-1`, which a Python stop of 0 turns into. */
  lemma WindowToEnd(n: nat, a: nat)
    requires a < n
    ensures Window(n, a, 0 - 1) == (a, n)
  {
  }

  function LLen(st: Store, k: string): (r: Result<nat>)
    ensures r.Ok? <==> ListAt(st, k).Ok?
    ensures r.Ok? ==> r.value == |ItemsOf(st, k)|
    ensures r.Err? ==> r.error == WrongTypeError
  {
    var xs :- ListAt(st, k);
    Ok(|xs|)
  }

  function LRange(st: Store, k: string, start: int, stop: int): (r: Result<seq<string>>)
    ensures r.Err? <==> ListAt(st, k).Err?
    ensures r.Ok? ==> var w := Window(|ItemsOf(st, k)|, start, stop); r.value == ItemsOf(st, k)[w.0..w.1]
    ensures r.Ok? && start == Leftmost && stop == Rightmost ==> r.value == ItemsOf(st, k)
    ensures r.Err? ==> r.error == WrongTypeError
  {
    var xs :- ListAt(st, k);
    var w := Window(|xs|, start, stop);
    Ok(xs[w.0..w.1])
  }

  /** LINDEX: the element a Python index names, `None` instead of an error
      when the index is out of range. */
  function LIndex(st: Store, k: string, i: int): (r: Result<Option<string>>)
    ensures r.Err? <==> ListAt(st, k).Err?
    ensures r.Ok? ==> (r.value.Some? <==> Index(ItemsOf(st, k), i).Ok?)
    ensures r.Ok? && r.value.Some? ==> Index(ItemsOf(st, k), i) == Ok(r.value.value)
    ensures r.Err? ==> r.error == WrongTypeError
  {
    var xs :- ListAt(st, k);
    var j := if i < 0 then i + |xs| else i;
    if 0 <= j < |xs| then Ok(Some(xs[j])) else Ok(None)
  }

  /** LSET: replaces one element; an absent key and an index out of range are errors. */
  function LSet(st: Store, k: string, i: int, s: string): (r: Result<Store>)
    ensures k !in st.data ==> r == Err(ResponseError(NoSuchKey))
    ensures k in st.data && !st.data[k].List? ==> r == Err(WrongTypeError)
    ensures k in st.data && st.data[k].List? ==> (r.Ok? <==> SetIndex(ItemsOf(st, k), i, s).Ok?)
    ensures r.Ok? ==> ItemsOf(r.value, k) == SetIndex(ItemsOf(st, k), i, s).value
    ensures r.Ok? ==> SameElsewhere(st, r.value, k) && Ttl(r.value, k) == Ttl(st, k)
    ensures r.Err? && k in st.data && st.data[k].List? ==> r.error == ResponseError(IndexOutOfRange)
    ensures r.Ok? && Valid(st) ==> Valid(r.value)
  {
    if k !in st.data then Err(ResponseError(NoSuchKey))
    else
      var xs :- ListAt(st, k);
      var j := if i < 0 then i + |xs| else i;
      if 0 <= j < |xs| then Ok(Put(st, k, List(xs[j := s])))
      else Err(ResponseError(IndexOutOfRange))
  }

  /** LTRIM: keeps the inclusive range and drops the rest; the key goes when
      nothing is kept. */
  function LTrim(st: Store, k: string, start: int, stop: int): (r: Result<Store>)
    ensures r.Err? <==> ListAt(st, k).Err?
    ensures r.Ok? ==> var w := Window(|ItemsOf(st, k)|, start, stop); ItemsOf(r.value, k) == ItemsOf(st, k)[w.0..w.1]
    ensures r.Ok? ==> SameElsewhere(st, r.value, k)
    ensures r.Err? ==> r.error == WrongTypeError
    ensures r.Ok? && Valid(st) ==> Valid(r.value)
  {
    var xs :- ListAt(st, k);
    var w := Window(|xs|, start, stop);
    Ok(Put(st, k, List(xs[w.0..w.1])))
  }

  /** LREM with count 0: removes every element equal to `v`. */
  function LRem(st: Store, k: string, v: string): (r: Result<Written<nat>>)
    ensures r.Err? <==> ListAt(st, k).Err?
    ensures r.Ok? ==> r.value.reply == Count(ItemsOf(st, k), v)
    ensures r.Ok? ==> ItemsOf(r.value.after, k) == Without(ItemsOf(st, k), v)
    ensures r.Ok? ==> SameElsewhere(st, r.value.after, k)
    ensures r.Err? ==> r.error == WrongTypeError
    ensures r.Ok? && Valid(st) ==> Valid(r.value.after)
  {
    var xs :- ListAt(st, k);
    Ok(Written(Count(xs, v), Put(st, k, List(Without(xs, v)))))
  }

  /** LPUSH of several values: each goes to the head in turn, so they end up
      reversed in front of the old elements. The reply is the new length. */
  function LPush(st: Store, k: string, vs: seq<string>): (r: Result<Written<nat>>)
    ensures vs == [] ==> r == Err(ResponseError(WrongArity))
    ensures vs != [] ==> (r.Err? <==> ListAt(st, k).Err?)
    ensures r.Ok? ==> ItemsOf(r.value.after, k) == Reverse(vs) + ItemsOf(st, k)
    ensures r.Ok? ==> r.value.reply == |ItemsOf(r.value.after, k)|
    ensures r.Ok? ==> SameElsewhere(st, r.value.after, k) && Ttl(r.value.after, k) == Ttl(st, k)
    ensures r.Err? && vs != [] ==> r.error == WrongTypeError
    ensures r.Ok? && Valid(st) ==> Valid(r.value.after)
  {
    if vs == [] then Err(ResponseError(WrongArity))
    else
      var xs :- ListAt(st, k);
      var ys := Reverse(vs) + xs;
      Ok(Written(|ys|, Put(st, k, List(ys))))
  }

  function RPush(st: Store, k: string, vs: seq<string>): (r: Result<Written<nat>>)
    ensures vs == [] ==> r == Err(ResponseError(WrongArity))
    ensures vs != [] ==> (r.Err? <==> ListAt(st, k).Err?)
    ensures r.Ok? ==> ItemsOf(r.value.after, k) == ItemsOf(st, k) + vs
    ensures r.Ok? ==> r.value.reply == |ItemsOf(r.value.after, k)|
    ensures r.Ok? ==> SameElsewhere(st, r.value.after, k) && Ttl(r.value.after, k) == Ttl(st, k)
    ensures r.Err? && vs != [] ==> r.error == WrongTypeError
    ensures r.Ok? && Valid(st) ==> Valid(r.value.after)
  {
    if vs == [] then Err(ResponseError(WrongArity))
    else
      var xs :- ListAt(st, k);
      var ys := xs + vs;
      Ok(Written(|ys|, Put(st, k, List(ys))))
  }

  /** LPOP: the head, or `None` (and no change) for an empty list. */
  function LPop(st: Store, k: string): (r: Result<Written<Option<string>>>)
    ensures r.Err? <==> ListAt(st, k).Err?
    ensures r.Ok? && ItemsOf(st, k) == [] ==> r.value == Written(None, st)
    ensures r.Ok? && ItemsOf(st, k) != [] ==>
      r.value.reply == Some(ItemsOf(st, k)[0]) && ItemsOf(r.value.after, k) == ItemsOf(st, k)[1..]
    ensures r.Ok? ==> SameElsewhere(st, r.value.after, k)
    ensures r.Err? ==> r.error == WrongTypeError
    ensures r.Ok? && Valid(st) ==> Valid(r.value.after)
  {
    var xs :- ListAt(st, k);
    if xs == [] then Ok(Written(None, st))
    else Ok(Written(Some(xs[0]), Put(st, k, List(xs[1..]))))
  }

  /** RPOP: the tail, or `None` (and no change) for an empty list. */
  function RPop(st: Store, k: string): (r: Result<Written<Option<string>>>)
    ensures r.Err? <==> ListAt(st, k).Err?
    ensures r.Ok? && ItemsOf(st, k) == [] ==> r.value == Written(None, st)
    ensures r.Ok? && ItemsOf(st, k) != [] ==> var xs := ItemsOf(st, k);
      r.value.reply == Some(xs[|xs| - 1]) && ItemsOf(r.value.after, k) == xs[..|xs| - 1]
    ensures r.Ok? ==> SameElsewhere(st, r.value.after, k)
    ensures r.Err? ==> r.error == WrongTypeError
    ensures r.Ok? && Valid(st) ==> Valid(r.value.after)
  {
    var xs :- ListAt(st, k);
    if xs == [] then Ok(Written(None, st))
    else Ok(Written(Some(xs[|xs| - 1]), Put(st, k, List(xs[..|xs| - 1]))))
  }

  /** RPOPLPUSH: the source's tail moves to the destination's head. An empty
      source answers `None` before the destination is looked at; a source that
      is its own destination rotates. */
  function RPopLPush(st: Store, src: string, dst: string): (r: Result<Written<Option<string>>>)
    ensures ListAt(st, src).Err? ==> r == Err(WrongTypeError)
    ensures ListAt(st, src).Ok? && ItemsOf(st, src) == [] ==> r == Ok(Written(None, st))
    ensures ListAt(st, src).Ok? && ItemsOf(st, src) != [] ==> (r.Err? <==> ListAt(st, dst).Err?)
    ensures r.Ok? && ItemsOf(st, src) != [] ==> var xs := ItemsOf(st, src); var x := xs[|xs| - 1];
      r.value.reply == Some(x) &&
      (src == dst ==> ItemsOf(r.value.after, src) == [x] + xs[..|xs| - 1]) &&
      (src != dst ==> ItemsOf(r.value.after, src) == xs[..|xs| - 1] &&
                      ItemsOf(r.value.after, dst) == [x] + ItemsOf(st, dst))
    ensures r.Ok? ==> SameElsewhere2(st, r.value.after, src, dst)
    ensures r.Err? ==> r.error == WrongTypeError
    ensures r.Ok? && Valid(st) ==> Valid(r.value.after)
  {
    var xs :- ListAt(st, src);
    if xs == [] then Ok(Written(None, st))
    else
      var ys :- ListAt(st, dst);
      var x := xs[|xs| - 1];
      if src == dst then
        var st1 := Put(st, src, List([x] + xs[..|xs| - 1]));
        FrameWidens(st, st1, src, dst);
        Ok(Written(Some(x), st1))
      else
        var st1 := Put(st, src, List(xs[..|xs| - 1]));
        assert ListAt(st1, dst) == ListAt(st, dst);
        var st2 := Put(st1, dst, List([x] + ys));
        FramesCompose(st, st1, st2, src, dst);
        Ok(Written(Some(x), st2))
  }

  /** Pushing at the head and popping the head gives back the value and the list. */
  lemma LPushThenLPop(st: Store, k: string, x: string)
    requires ListAt(st, k).Ok?
    ensures var pushed := LPush(st, k, [x]);
      pushed.Ok? && var popped := LPop(pushed.value.after, k);
      popped.Ok? && popped.value.reply == Some(x) && ItemsOf(popped.value.after, k) == ItemsOf(st, k)
  {
    var after := LPush(st, k, [x]).value.after;
    assert Reverse([x]) == [x];
    assert ItemsOf(after, k) == [x] + ItemsOf(st, k);
    assert ([x] + ItemsOf(st, k))[1..] == ItemsOf(st, k);
  }

  /** Pushing at the tail and popping the tail gives back the value and the list. */
  lemma RPushThenRPop(st: Store, k: string, x: string)
    requires ListAt(st, k).Ok?
    ensures var pushed := RPush(st, k, [x]);
      pushed.Ok? && var popped := RPop(pushed.value.after, k);
      popped.Ok? && popped.value.reply == Some(x) && ItemsOf(popped.value.after, k) == ItemsOf(st, k)
  {
    var xs := ItemsOf(st, k) + [x];
    assert xs[..|xs| - 1] == ItemsOf(st, k);
  }
}
