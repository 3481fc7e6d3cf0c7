/**
 * The set commands of the server. An absent key reads as the empty set; a key
 * holding anything else is an error.
 */
module SetCommands {
  import opened Python
  import opened Store

  function SetAt(st: Store, k: string): (r: Result<set<string>>)
    ensures r.Err? <==> k in st.data && !st.data[k].SetOf?
    ensures r.Err? ==> r.error == WrongTypeError
    ensures r.Ok? && k in st.data ==> r.value == st.data[k].members
    ensures k !in st.data ==> r == Ok({})
  {
    if k !in st.data then Ok({})
    else match st.data[k]
      case SetOf(ms) => Ok(ms)
      case _ => Err(WrongTypeError)
  }

  /** The members, empty when the key is absent or holds something else. */
  function MembersOf(st: Store, k: string): set<string> {
    if SetAt(st, k).Ok? then SetAt(st, k).value else {}
  }

  /** SADD: adds the members; the reply counts the ones that were new. */
  function SAdd(st: Store, k: string, ms: set<string>): (r: Result<Written<nat>>)
    ensures ms == {} ==> r == Err(ResponseError(WrongArity))
    ensures ms != {} ==> (r.Err? <==> SetAt(st, k).Err?)
    ensures r.Ok? ==> MembersOf(r.value.after, k) == MembersOf(st, k) + ms
    ensures r.Ok? ==> r.value.reply == |ms - MembersOf(st, k)|
    ensures r.Ok? ==> SameElsewhere(st, r.value.after, k) && Ttl(r.value.after, k) == Ttl(st, k)
    ensures r.Err? && ms != {} ==> r.error == WrongTypeError
    ensures r.Ok? && Valid(st) ==> Valid(r.value.after)
  {
    if ms == {} then Err(ResponseError(WrongArity))
    else
      var old_ms :- SetAt(st, k);
      Ok(Written(|ms - old_ms|, Put(st, k, SetOf(old_ms + ms))))
  }

  /** SREM: removes the members; the reply counts the ones that were there. */
  function SRem(st: Store, k: string, ms: set<string>): (r: Result<Written<nat>>)
    ensures ms == {} ==> r == Err(ResponseError(WrongArity))
    ensures ms != {} ==> (r.Err? <==> SetAt(st, k).Err?)
    ensures r.Ok? ==> MembersOf(r.value.after, k) == MembersOf(st, k) - ms
    ensures r.Ok? ==> SetAt(r.value.after, k).Ok?
    ensures r.Ok? ==> r.value.reply == |ms * MembersOf(st, k)|
    ensures r.Ok? ==> SameElsewhere(st, r.value.after, k)
    ensures r.Err? && ms != {} ==> r.error == WrongTypeError
    ensures r.Ok? && Valid(st) ==> Valid(r.value.after)
  {
    if ms == {} then Err(ResponseError(WrongArity))
    else
      var old_ms :- SetAt(st, k);
      Ok(Written(|ms * old_ms|, Put(st, k, SetOf(old_ms - ms))))
  }

  function SIsMember(st: Store, k: string, m: string): (r: Result<bool>)
    ensures r.Err? <==> SetAt(st, k).Err?
    ensures r.Ok? ==> (r.value <==> m in MembersOf(st, k))
  {
    var ms :- SetAt(st, k);
    Ok(m in ms)
  }

  function SCard(st: Store, k: string): (r: Result<nat>)
    ensures r.Err? <==> SetAt(st, k).Err?
    ensures r.Ok? ==> r.value == |MembersOf(st, k)|
  {
    var ms :- SetAt(st, k);
    Ok(|ms|)
  }

  /** SPOP: removes some member, the server's choice `m`; `None` for an empty set.
      The chosen member must belong to the set. */
  function SPop(st: Store, k: string, m: string): (r: Result<Written<Option<string>>>)
    requires SetAt(st, k).Ok? && MembersOf(st, k) != {} ==> m in MembersOf(st, k)
    ensures r.Err? <==> SetAt(st, k).Err?
    ensures r.Ok? && MembersOf(st, k) == {} ==> r.value == Written(None, st)
    ensures r.Ok? && MembersOf(st, k) != {} ==>
      r.value.reply == Some(m) && MembersOf(r.value.after, k) == MembersOf(st, k) - {m}
    ensures r.Ok? ==> SameElsewhere(st, r.value.after, k)
    ensures r.Ok? && Valid(st) ==> Valid(r.value.after)
  {
    var ms :- SetAt(st, k);
    if ms == {} then Ok(Written(None, st))
    else Ok(Written(Some(m), Put(st, k, SetOf(ms - {m}))))
  }

  /** SRANDMEMBER: some member, the server's choice `m`, without removing it. */
  function SRandMember(st: Store, k: string, m: string): (r: Result<Option<string>>)
    requires SetAt(st, k).Ok? && MembersOf(st, k) != {} ==> m in MembersOf(st, k)
    ensures r.Err? <==> SetAt(st, k).Err?
    ensures r.Ok? ==> (r.value == None <==> MembersOf(st, k) == {})
    ensures r.Ok? && r.value.Some? ==> r.value.value in MembersOf(st, k)
  {
    var ms :- SetAt(st, k);
    if ms == {} then Ok(None) else Ok(Some(m))
  }

  /** SMOVE: moves `m` from `src` to `dst`. An absent source answers false
      before either type is checked; a key that is its own destination is
      only asked whether it holds `m`. */
  function SMove(st: Store, src: string, dst: string, m: string): (r: Result<Written<bool>>)
    ensures src !in st.data ==> r == Ok(Written(false, st))
    ensures src in st.data ==> (r.Err? <==> SetAt(st, src).Err? || SetAt(st, dst).Err?)
    ensures r.Err? ==> r.error == WrongTypeError
    ensures r.Ok? ==> (r.value.reply <==> m in MembersOf(st, src))
    ensures r.Ok? && (src == dst || !r.value.reply) ==> r.value.after == st
    ensures r.Ok? && src != dst && r.value.reply ==>
      MembersOf(r.value.after, src) == MembersOf(st, src) - {m} &&
      MembersOf(r.value.after, dst) == MembersOf(st, dst) + {m}
    ensures r.Ok? && Valid(st) ==> Valid(r.value.after)
  {
    if src !in st.data then Ok(Written(false, st))
    else
      var from :- SetAt(st, src);
      var to :- SetAt(st, dst);
      if src == dst || m !in from then Ok(Written(m in from, st))
      else
        var st1 := Put(st, src, SetOf(from - {m}));
        assert SetAt(st1, dst) == SetAt(st, dst);
        Ok(Written(true, Put(st1, dst, SetOf(to + {m}))))
  }

  /** SUNION: every key must be a set or absent. */
  function SUnion(st: Store, ks: seq<string>): (r: Result<set<string>>)
    ensures r.Err? <==> exists i :: 0 <= i < |ks| && SetAt(st, ks[i]).Err?
    ensures r.Err? ==> r.error == WrongTypeError
    ensures r.Ok? ==> forall m :: m in r.value <==> exists i :: 0 <= i < |ks| && m in MembersOf(st, ks[i])
  {
    if ks == [] then Ok({})
    else
      var first :- SetAt(st, ks[0]);
      var rest :- SUnion(st, ks[1..]);
      assert forall i :: 1 <= i < |ks| ==> ks[i] == ks[1..][i - 1];
      Ok(first + rest)
  }

  /** SINTER: the keys are looked at in order; the first absent one makes the
      answer empty before any later key's type is checked. */
  function SInter(st: Store, ks: seq<string>): (r: Result<set<string>>)
    requires ks != []
    ensures r.Err? ==> r.error == WrongTypeError
    ensures r.Err? ==> exists i :: 0 <= i < |ks| && SetAt(st, ks[i]).Err?
    ensures (forall i :: 0 <= i < |ks| ==> ks[i] in st.data) ==>
      (r.Err? <==> exists i :: 0 <= i < |ks| && SetAt(st, ks[i]).Err?)
    ensures r.Ok? ==> forall m :: m in r.value <==> forall i :: 0 <= i < |ks| ==> m in MembersOf(st, ks[i])
  {
    var first :- SetAt(st, ks[0]);
    if ks[0] !in st.data then Ok({})
    else if |ks| == 1 then Ok(first)
    else
      var rest :- SInter(st, ks[1..]);
      assert forall i :: 1 <= i < |ks| ==> ks[i] == ks[1..][i - 1];
      Ok(first * rest)
  }

  /** SDIFF: the first key's members that no later key holds. */
  function SDiff(st: Store, ks: seq<string>): (r: Result<set<string>>)
    requires ks != []
    ensures r.Err? <==> exists i :: 0 <= i < |ks| && SetAt(st, ks[i]).Err?
    ensures r.Err? ==> r.error == WrongTypeError
    ensures r.Ok? ==> forall m :: m in r.value <==>
      m in MembersOf(st, ks[0]) && forall i :: 1 <= i < |ks| ==> m !in MembersOf(st, ks[i])
  {
    var first :- SetAt(st, ks[0]);
    var others :- SUnion(st, ks[1..]);
    assert forall i :: 1 <= i < |ks| ==> ks[i] == ks[1..][i - 1];
    Ok(first - others)
  }

  /** The `*STORE` forms: the result replaces `dst` (dropping its deadline,
      removing it when empty), and the reply is its size. */
  function StoreResult(st: Store, dst: string, result: Result<set<string>>): (r: Result<Written<nat>>)
    ensures r.Err? <==> result.Err?
    ensures r.Err? ==> r.error == result.error
    ensures r.Ok? ==> r.value.reply == |result.value| && MembersOf(r.value.after, dst) == result.value
    ensures r.Ok? ==> SameElsewhere(st, r.value.after, dst) && Ttl(r.value.after, dst) == None
    ensures r.Ok? && Valid(st) ==> Valid(r.value.after)
  {
    var ms :- result;
    Ok(Written(|ms|, Overwrite(st, dst, SetOf(ms))))
  }

  function SUnionStore(st: Store, dst: string, ks: seq<string>): (r: Result<Written<nat>>)
    ensures r.Err? <==> SUnion(st, ks).Err?
    ensures r.Ok? ==> MembersOf(r.value.after, dst) == SUnion(st, ks).value
    ensures r.Ok? ==> SameElsewhere(st, r.value.after, dst)
    ensures r.Ok? && Valid(st) ==> Valid(r.value.after)
  {
    StoreResult(st, dst, SUnion(st, ks))
  }

  function SInterStore(st: Store, dst: string, ks: seq<string>): (r: Result<Written<nat>>)
    requires ks != []
    ensures r.Err? <==> SInter(st, ks).Err?
    ensures r.Ok? ==> MembersOf(r.value.after, dst) == SInter(st, ks).value
    ensures r.Ok? ==> SameElsewhere(st, r.value.after, dst)
    ensures r.Ok? && Valid(st) ==> Valid(r.value.after)
  {
    StoreResult(st, dst, SInter(st, ks))
  }

  function SDiffStore(st: Store, dst: string, ks: seq<string>): (r: Result<Written<nat>>)
    requires ks != []
    ensures r.Err? <==> SDiff(st, ks).Err?
    ensures r.Ok? ==> MembersOf(r.value.after, dst) == SDiff(st, ks).value
    ensures r.Ok? ==> SameElsewhere(st, r.value.after, dst)
    ensures r.Ok? && Valid(st) ==> Valid(r.value.after)
  {
    StoreResult(st, dst, SDiff(st, ks))
  }

  /** With two set operands the three commands are the set operators. */
  lemma {:induction false} TwoKeyAlgebra(st: Store, a: string, b: string)
    requires SetAt(st, a).Ok? && SetAt(st, b).Ok?
    ensures SUnion(st, [a, b]) == Ok(MembersOf(st, a) + MembersOf(st, b))
    ensures SInter(st, [a, b]) == Ok(MembersOf(st, a) * MembersOf(st, b))
    ensures SDiff(st, [a, b]) == Ok(MembersOf(st, a) - MembersOf(st, b))
  {
    var ks := [a, b];
    assert forall i :: 0 <= i < |ks| ==> SetAt(st, ks[i]).Ok? by {
      assert forall i :: 0 <= i < |ks| ==> ks[i] == a || ks[i] == b;
    }
    var u := SUnion(st, ks).value;
    assert forall m :: m in u <==> m in MembersOf(st, ks[0]) || m in MembersOf(st, ks[1]);
    assert u == MembersOf(st, a) + MembersOf(st, b);
    var i := SInter(st, ks);
    if i.Ok? {
      assert forall m :: m in i.value <==> m in MembersOf(st, ks[0]) && m in MembersOf(st, ks[1]);
      assert i.value == MembersOf(st, a) * MembersOf(st, b);
    }
    var d := SDiff(st, ks).value;
    assert forall m :: m in d <==> m in MembersOf(st, ks[0]) && m !in MembersOf(st, ks[1]);
    assert d == MembersOf(st, a) - MembersOf(st, b);
  }

  /** `SUNIONSTORE a a b` leaves the union of the two keys in `a`. */
  lemma UnionStored(st: Store, a: string, b: string)
    requires SUnionStore(st, a, [a, b]).Ok?
    ensures MembersOf(SUnionStore(st, a, [a, b]).value.after, a) == MembersOf(st, a) + MembersOf(st, b)
  {
    var ks := [a, b];
    assert ks[0] == a && ks[1] == b;
    TwoKeyAlgebra(st, a, b);
  }

  /** `SINTERSTORE a a b` leaves the intersection in `a` when `b` is a set or absent. */
  lemma InterStored(st: Store, a: string, b: string)
    requires SInterStore(st, a, [a, b]).Ok? && SetAt(st, b).Ok?
    ensures MembersOf(SInterStore(st, a, [a, b]).value.after, a) == MembersOf(st, a) * MembersOf(st, b)
  {
    var ks := [a, b];
    assert ks[0] == a && ks[1] == b;
    TwoKeyAlgebra(st, a, b);
  }

  /** `SDIFFSTORE a a b` leaves the difference in `a`. */
  lemma DiffStored(st: Store, a: string, b: string)
    requires SDiffStore(st, a, [a, b]).Ok?
    ensures MembersOf(SDiffStore(st, a, [a, b]).value.after, a) == MembersOf(st, a) - MembersOf(st, b)
  {
    var ks := [a, b];
    assert ks[0] == a && ks[1] == b;
    TwoKeyAlgebra(st, a, b);
  }

  /** Adding members and then removing the same ones leaves the members that
      were there before, less the ones added. */
  lemma SAddThenSRem(st: Store, k: string, ms: set<string>)
    requires SetAt(st, k).Ok? && ms != {}
    ensures var added := SAdd(st, k, ms);
      added.Ok? && var removed := SRem(added.value.after, k, ms);
      removed.Ok? && removed.value.reply == |ms| && MembersOf(removed.value.after, k) == MembersOf(st, k) - ms
  {
    var after := SAdd(st, k, ms).value.after;
    assert ms * MembersOf(after, k) == ms;
  }
}
