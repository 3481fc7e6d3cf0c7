/**
 * The sorted-set commands of the server, over the ranked listing of ZOrder.
 * Scores are integers in this model.
 */
module ZSetCommands {
  import opened Python
  import opened ZOrder
  import opened Store
  import opened ListCommands

  function ZSetAt(st: Store, k: string): (r: Result<seq<Entry>>)
    ensures r.Err? <==> k in st.data && !st.data[k].ZSet?
    ensures r.Err? ==> r.error == WrongTypeError
    ensures r.Ok? && k in st.data ==> r.value == st.data[k].entries
    ensures k !in st.data ==> r == Ok([])
    ensures r.Ok? && Valid(st) ==> Ranked(r.value)
  {
    if k !in st.data then Ok([])
    else match st.data[k]
      case ZSet(es) => Ok(es)
      case _ => Err(WrongTypeError)
  }

  /** The listing, empty when the key is absent or holds something else. */
  function EntriesOf(st: Store, k: string): (es: seq<Entry>)
    ensures Valid(st) ==> Ranked(es)
  {
    if ZSetAt(st, k).Ok? then ZSetAt(st, k).value else []
  }

  /** ZADD of one member: the reply says whether the member is new. */
  function ZAdd(st: Store, k: string, m: string, s: int): (r: Result<Written<bool>>)
    requires Valid(st)
    ensures r.Err? <==> ZSetAt(st, k).Err?
    ensures r.Ok? ==> (r.value.reply <==> m !in Members(EntriesOf(st, k)))
    ensures r.Ok? ==> ScoreOf(EntriesOf(r.value.after, k), m) == Some(s)
    ensures r.Ok? ==> Members(EntriesOf(r.value.after, k)) == Members(EntriesOf(st, k)) + {m}
    ensures r.Ok? ==> forall n :: n != m ==> ScoreOf(EntriesOf(r.value.after, k), n) == ScoreOf(EntriesOf(st, k), n)
    ensures r.Ok? ==> SameElsewhere(st, r.value.after, k) && Ttl(r.value.after, k) == Ttl(st, k)
    ensures r.Ok? ==> Valid(r.value.after)
  {
    var es :- ZSetAt(st, k);
    var es' := Upsert(es, m, s);
    UpsertRanked(es, m, s);
    assert es' != [] by { assert m in Members(es'); }
    var after := Put(st, k, ZSet(es'));
    PutEntries(st, k, es');
    Ok(Written(m !in Members(es), after))
  }

  /** ZREM of one member: the number removed. */
  function ZRem(st: Store, k: string, m: string): (r: Result<Written<nat>>)
    requires Valid(st)
    ensures r.Err? <==> ZSetAt(st, k).Err?
    ensures r.Ok? ==> r.value.reply == if m in Members(EntriesOf(st, k)) then 1 else 0
    ensures r.Ok? ==> forall x :: x in EntriesOf(r.value.after, k) <==> x in EntriesOf(st, k) && x.member != m
    ensures r.Ok? ==> SameElsewhere(st, r.value.after, k)
    ensures r.Ok? ==> Valid(r.value.after)
  {
    var es :- ZSetAt(st, k);
    RemoveRanked(es, m);
    Ok(Written(if m in Members(es) then 1 else 0, Put(st, k, ZSet(Remove(es, m)))))
  }

  function ZScore(st: Store, k: string, m: string): (r: Result<Option<int>>)
    requires Valid(st)
    ensures r.Err? <==> ZSetAt(st, k).Err?
    ensures r.Ok? ==> (r.value.None? <==> m !in Members(EntriesOf(st, k)))
    ensures r.Ok? ==> forall s :: r.value == Some(s) <==> Entry(m, s) in EntriesOf(st, k)
  {
    var es :- ZSetAt(st, k);
    forall s ensures ScoreOf(es, m) == Some(s) <==> Entry(m, s) in es {
      ScoreOfListed(es, m, s);
    }
    Ok(ScoreOf(es, m))
  }

  /** ZRANK: the number of members listed before `m`. */
  function ZRank(st: Store, k: string, m: string): (r: Result<Option<nat>>)
    requires Valid(st)
    ensures r.Err? <==> ZSetAt(st, k).Err?
    ensures r.Ok? ==> (r.value.None? <==> m !in Members(EntriesOf(st, k)))
    ensures r.Ok? && r.value.Some? ==> var es := EntriesOf(st, k);
      r.value.value < |es| && es[r.value.value].member == m && RankOf(es, r.value.value)
  {
    var es :- ZSetAt(st, k);
    if m in Members(es) then RankCountsPredecessors(es, m); Ok(Find(es, m))
    else Ok(None)
  }

  /** ZREVRANK: the rank counted from the highest entry. */
  function ZRevRank(st: Store, k: string, m: string): (r: Result<Option<nat>>)
    requires Valid(st)
    ensures r.Err? <==> ZSetAt(st, k).Err?
    ensures r.Ok? ==> (r.value.None? <==> m !in Members(EntriesOf(st, k)))
    ensures r.Ok? && r.value.Some? ==> var es := EntriesOf(st, k);
      ReverseRankOf(es, r.value.value, m) &&
      r.value.value + ZRank(st, k, m).value.value == |es| - 1
  {
    var rank :- ZRank(st, k, m);
    match rank
    case None => Ok(None)
    case Some(i) => Ok(Some(|EntriesOf(st, k)| - 1 - i))
  }

  /** ZINCRBY: adds `d` to the member's score, an absent member counting as 0. */
  function ZIncrBy(st: Store, k: string, m: string, d: int): (r: Result<Written<int>>)
    requires Valid(st)
    ensures r.Err? <==> ZSetAt(st, k).Err?
    ensures r.Ok? ==> r.value.reply == (match ScoreOf(EntriesOf(st, k), m) case Some(s) => s case None => 0) + d
    ensures r.Ok? ==> ScoreOf(EntriesOf(r.value.after, k), m) == Some(r.value.reply)
    ensures r.Ok? ==> Members(EntriesOf(r.value.after, k)) == Members(EntriesOf(st, k)) + {m}
    ensures r.Ok? ==> forall n :: n != m ==> ScoreOf(EntriesOf(r.value.after, k), n) == ScoreOf(EntriesOf(st, k), n)
    ensures r.Ok? ==> SameElsewhere(st, r.value.after, k)
    ensures r.Ok? ==> Valid(r.value.after)
  {
    var es :- ZSetAt(st, k);
    var s := (match ScoreOf(es, m) case Some(s) => s case None => 0) + d;
    var added := ZAdd(st, k, m, s);
    Ok(Written(s, added.value.after))
  }

  /** ZRANGE: the entries at ranks `start..stop`, both inclusive. */
  function ZRange(st: Store, k: string, start: int, stop: int): (r: Result<seq<Entry>>)
    ensures r.Err? <==> ZSetAt(st, k).Err?
    ensures r.Ok? ==> var w := Window(|EntriesOf(st, k)|, start, stop); r.value == EntriesOf(st, k)[w.0..w.1]
    ensures r.Ok? && Valid(st) ==> Ranked(r.value)
  {
    var es :- ZSetAt(st, k);
    var w := Window(|es|, start, stop);
    assert Valid(st) ==> Ranked(es[w.0..w.1]) by {
      if Valid(st) {
        assert forall i, j :: 0 <= i < j < w.1 - w.0 ==> es[w.0..w.1][i] == es[w.0 + i] && es[w.0..w.1][j] == es[w.0 + j];
      }
    }
    Ok(es[w.0..w.1])
  }

  /** ZREMRANGEBYRANK: removes the entries at ranks `start..stop`; the reply is
      how many went. */
  function ZRemRangeByRank(st: Store, k: string, start: int, stop: int): (r: Result<Written<nat>>)
    requires Valid(st)
    ensures r.Err? <==> ZSetAt(st, k).Err?
    ensures r.Ok? ==> var es := EntriesOf(st, k); var w := Window(|es|, start, stop);
      r.value.reply == w.1 - w.0 && EntriesOf(r.value.after, k) == es[..w.0] + es[w.1..]
    ensures r.Ok? ==> SameElsewhere(st, r.value.after, k)
    ensures r.Ok? ==> Valid(r.value.after)
  {
    var es :- ZSetAt(st, k);
    var w := Window(|es|, start, stop);
    CutRanked(es, w.0, w.1);
    Ok(Written(w.1 - w.0, Put(st, k, ZSet(es[..w.0] + es[w.1..]))))
  }

  function ZCard(st: Store, k: string): (r: Result<nat>)
    requires Valid(st)
    ensures r.Err? <==> ZSetAt(st, k).Err?
    ensures r.Ok? ==> r.value == |EntriesOf(st, k)| == |Members(EntriesOf(st, k))|
  {
    var es :- ZSetAt(st, k);
    RankedMembersCount(es);
    Ok(|es|)
  }

  /** Storing a non-empty ranked listing: the key now reads as exactly that listing. */
  lemma PutEntries(st: Store, k: string, es: seq<Entry>)
    requires Ranked(es) && es != []
    ensures EntriesOf(Put(st, k, ZSet(es)), k) == es
    ensures Ttl(Put(st, k, ZSet(es)), k) == Ttl(st, k)
  {
  }

  /** ZRANK and ZSCORE agree with the order: a lower score never has a higher rank. */
  lemma RankFollowsScore(st: Store, k: string, m: string, n: string)
    requires Valid(st) && ZSetAt(st, k).Ok?
    requires m in Members(EntriesOf(st, k)) && n in Members(EntriesOf(st, k))
    requires ZScore(st, k, m).value.value < ZScore(st, k, n).value.value
    ensures ZRank(st, k, m).value.value < ZRank(st, k, n).value.value
  {
    var es := EntriesOf(st, k);
    var i := Find(es, m).value;
    var j := Find(es, n).value;
    ScoreOfListed(es, m, es[i].score);
    ScoreOfListed(es, n, es[j].score);
    RankCountsPredecessors(es, n);
  }

  /** ZADD leaves the listing with the member's entry replaced, or added. */
  lemma ZAddEntries(st: Store, k: string, m: string, s: int)
    requires Valid(st) && ZSetAt(st, k).Ok?
    ensures var after := ZAdd(st, k, m, s).value.after;
      ZSetAt(after, k).Ok? && EntriesOf(after, k) == Upsert(EntriesOf(st, k), m, s)
  {
    var es' := Upsert(EntriesOf(st, k), m, s);
    UpsertRanked(EntriesOf(st, k), m, s);
    assert es' != [] by { assert m in Members(es'); }
    PutEntries(st, k, es');
  }

  /** A second ZADD of a member replaces the first: the listing is the one a
      single ZADD with the second score leaves. */
  lemma ZAddTwice(st: Store, k: string, m: string, s1: int, s2: int)
    requires Valid(st) && ZSetAt(st, k).Ok?
    ensures var once := ZAdd(st, k, m, s1).value.after;
      EntriesOf(ZAdd(once, k, m, s2).value.after, k) == EntriesOf(ZAdd(st, k, m, s2).value.after, k)
  {
    var once := ZAdd(st, k, m, s1).value.after;
    ZAddEntries(st, k, m, s1);
    ZAddEntries(once, k, m, s2);
    ZAddEntries(st, k, m, s2);
    UpsertTwice(EntriesOf(st, k), m, s1, s2);
  }
}
