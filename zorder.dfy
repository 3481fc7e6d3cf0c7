/**
 * The order of a Redis sorted set: members ascend by score, and members with
 * equal scores ascend in byte order. A sorted set is kept as the listing of
 * its entries in that order, each member at most once; a member's rank is its
 * position in the listing.
 */
module ZOrder {
  import opened Python

  datatype Entry = Entry(member: string, score: int)

  /** Byte order on member strings; a proper prefix comes first. */
  predicate Below(a: string, b: string)
    decreases |a|
  {
    if a == [] then b != []
    else if b == [] then false
    else if a[0] != b[0] then a[0] < b[0]
    else Below(a[1..], b[1..])
  }

  lemma {:induction false} BelowIrreflexive(a: string)
    ensures !Below(a, a)
    decreases |a|
  {
    if a != [] {
      BelowIrreflexive(a[1..]);
    }
  }

  lemma {:induction false} BelowTransitive(a: string, b: string, c: string)
    requires Below(a, b) && Below(b, c)
    ensures Below(a, c)
    decreases |a|
  {
    if a != [] && b != [] && c != [] && a[0] == b[0] && b[0] == c[0] {
      BelowTransitive(a[1..], b[1..], c[1..]);
    }
  }

  lemma {:induction false} BelowTotal(a: string, b: string)
    requires a != b
    ensures Below(a, b) || Below(b, a)
    decreases |a|
  {
    if a != [] && b != [] && a[0] == b[0] {
      assert a == [a[0]] + a[1..] && b == [b[0]] + b[1..];
      BelowTotal(a[1..], b[1..]);
    }
  }

  /** The strict order of entries in a listing. */
  predicate Precedes(x: Entry, y: Entry) {
    x.score < y.score || (x.score == y.score && Below(x.member, y.member))
  }

  lemma PrecedesIrreflexive(x: Entry)
    ensures !Precedes(x, x)
  {
    BelowIrreflexive(x.member);
  }

  lemma PrecedesTransitive(x: Entry, y: Entry, z: Entry)
    requires Precedes(x, y) && Precedes(y, z)
    ensures Precedes(x, z)
  {
    if x.score == y.score == z.score {
      BelowTransitive(x.member, y.member, z.member);
    }
  }

  lemma PrecedesTotal(x: Entry, y: Entry)
    requires x.member != y.member
    ensures Precedes(x, y) || Precedes(y, x)
  {
    BelowTotal(x.member, y.member);
  }

  lemma PrecedesAsymmetric(x: Entry, y: Entry)
    requires Precedes(x, y)
    ensures !Precedes(y, x)
  {
    if Precedes(y, x) {
      PrecedesTransitive(x, y, x);
      PrecedesIrreflexive(x);
    }
  }

  /** A well-formed listing: strictly ascending, no member twice. */
  predicate Ranked(es: seq<Entry>) {
    forall i, j :: 0 <= i < j < |es| ==> Precedes(es[i], es[j]) && es[i].member != es[j].member
  }

  function Members(es: seq<Entry>): set<string> {
    set e | e in es :: e.member
  }

  /** The rank of `m`: the first position holding it. */
  function Find(es: seq<Entry>, m: string): (r: Option<nat>)
    ensures r.Some? ==> r.value < |es| && es[r.value].member == m
    ensures r.Some? ==> forall i :: 0 <= i < r.value ==> es[i].member != m
    ensures r.None? <==> m !in Members(es)
  {
    if es == [] then None
    else if es[0].member == m then Some(0)
    else
      assert forall e :: e in es ==> e == es[0] || e in es[1..];
      match Find(es[1..], m)
      case None => None
      case Some(i) => Some(i + 1)
  }

  function ScoreOf(es: seq<Entry>, m: string): (r: Option<int>)
    ensures r.Some? <==> m in Members(es)
    ensures r.Some? ==> Entry(m, r.value) in es
  {
    match Find(es, m)
    case None => None
    case Some(i) => Some(es[i].score)
  }

  /** In a well-formed listing a member has one score, the one it is listed with. */
  lemma ScoreOfListed(es: seq<Entry>, m: string, s: int)
    requires Ranked(es)
    ensures ScoreOf(es, m) == Some(s) <==> Entry(m, s) in es
  {
    if Entry(m, s) in es {
      var j :| 0 <= j < |es| && es[j] == Entry(m, s);
      var i := Find(es, m).value;
      assert i == j;
    }
  }

  /** Position `i` is the rank of its entry: exactly the entries listed
      before it precede it. */
  predicate RankOf(es: seq<Entry>, i: nat) {
    i < |es| && forall j :: 0 <= j < |es| ==> (j < i <==> Precedes(es[j], es[i]))
  }

  /** Counted from the highest entry, position `i` holds member `m`. */
  predicate ReverseRankOf(es: seq<Entry>, i: nat, m: string) {
    i < |es| && es[|es| - 1 - i].member == m
  }

  /** A rank counts exactly the entries listed before the member. */
  lemma RankCountsPredecessors(es: seq<Entry>, m: string)
    requires Ranked(es) && m in Members(es)
    ensures RankOf(es, Find(es, m).value)
  {
    var i := Find(es, m).value;
    forall j | 0 <= j < |es|
      ensures j < i <==> Precedes(es[j], es[i])
    {
      if j == i {
        PrecedesIrreflexive(es[i]);
      } else if j > i {
        PrecedesAsymmetric(es[i], es[j]);
      }
    }
  }

  /** Where a new entry goes: after every entry that it does not precede. */
  function Position(es: seq<Entry>, e: Entry): (p: nat)
    ensures p <= |es|
    ensures forall i :: 0 <= i < p ==> !Precedes(e, es[i])
    ensures p < |es| ==> Precedes(e, es[p])
  {
    if es == [] || Precedes(e, es[0]) then 0 else 1 + Position(es[1..], e)
  }

  function Insert(es: seq<Entry>, e: Entry): seq<Entry> {
    var p := Position(es, e);
    es[..p] + [e] + es[p..]
  }

  lemma InsertRanked(es: seq<Entry>, e: Entry)
    requires Ranked(es) && e.member !in Members(es)
    ensures Ranked(Insert(es, e))
    ensures forall x :: x in Insert(es, e) <==> x in es || x == e
  {
    var p := Position(es, e);
    var r := Insert(es, e);
    assert |r| == |es| + 1;
    assert forall i :: 0 <= i < p ==> r[i] == es[i];
    assert r[p] == e;
    assert forall i :: p < i < |r| ==> r[i] == es[i - 1];
    assert forall i :: 0 <= i < |es| ==> es[i].member != e.member by {
      forall i | 0 <= i < |es| ensures es[i].member != e.member {
        assert es[i] in es;
      }
    }
    forall i, j | 0 <= i < j < |r|
      ensures Precedes(r[i], r[j]) && r[i].member != r[j].member
    {
      if j < p {
      } else if j == p {
        PrecedesTotal(es[i], e);
      } else if i == p {
        if j - 1 > p {
          PrecedesTransitive(e, es[p], es[j - 1]);
        }
      } else if i < p {
      } else {
      }
    }
    forall x
      ensures x in r <==> x in es || x == e
    {
      if x in es {
        var k :| 0 <= k < |es| && es[k] == x;
        if k < p { assert r[k] == x; } else { assert r[k + 1] == x; }
      }
    }
  }

  /** The listing without the entries at positions `a` up to `b`. */
  lemma CutRanked(es: seq<Entry>, a: nat, b: nat)
    requires Ranked(es) && a <= b <= |es|
    ensures Ranked(es[..a] + es[b..])
  {
    var r := es[..a] + es[b..];
    forall i, j | 0 <= i < j < |r|
      ensures Precedes(r[i], r[j]) && r[i].member != r[j].member
    {
      var i' := if i < a then i else i + (b - a);
      var j' := if j < a then j else j + (b - a);
      assert r[i] == es[i'] && r[j] == es[j'] && i' < j';
    }
  }

  lemma CutContents(es: seq<Entry>, a: nat, b: nat, x: Entry)
    requires a <= b <= |es|
    ensures x in es[..a] + es[b..] <==> exists k :: 0 <= k < |es| && (k < a || b <= k) && es[k] == x
  {
    var r := es[..a] + es[b..];
    if x in r {
      var i :| 0 <= i < |r| && r[i] == x;
      if i < a { assert es[i] == x; } else { assert es[i + (b - a)] == x; }
    }
    if exists k :: 0 <= k < |es| && (k < a || b <= k) && es[k] == x {
      var k :| 0 <= k < |es| && (k < a || b <= k) && es[k] == x;
      if k < a { assert r[k] == x; } else { assert r[k - (b - a)] == x; }
    }
  }

  /** The listing without `m`. */
  function Remove(es: seq<Entry>, m: string): seq<Entry> {
    match Find(es, m)
    case None => es
    case Some(i) => es[..i] + es[i + 1..]
  }

  lemma RemoveRanked(es: seq<Entry>, m: string)
    requires Ranked(es)
    ensures Ranked(Remove(es, m))
    ensures forall x :: x in Remove(es, m) <==> x in es && x.member != m
    ensures |Remove(es, m)| == if m in Members(es) then |es| - 1 else |es|
  {
    match Find(es, m)
    case None =>
      forall x | x in es ensures x.member != m {
        assert x.member in Members(es);
      }
    case Some(i) =>
      CutRanked(es, i, i + 1);
      forall x
        ensures x in Remove(es, m) <==> x in es && x.member != m
      {
        CutContents(es, i, i + 1, x);
        if x in es && x.member != m {
          var k :| 0 <= k < |es| && es[k] == x;
          assert k != i;
        }
        if x in Remove(es, m) {
          var k :| 0 <= k < |es| && (k < i || i + 1 <= k) && es[k] == x;
          assert x.member != m;
        }
      }
  }

  /** ZADD: `m` now has score `s`, whether it was listed or not. */
  function Upsert(es: seq<Entry>, m: string, s: int): seq<Entry> {
    Insert(Remove(es, m), Entry(m, s))
  }

  lemma UpsertRanked(es: seq<Entry>, m: string, s: int)
    requires Ranked(es)
    ensures Ranked(Upsert(es, m, s))
    ensures forall x :: x in Upsert(es, m, s) <==> (x in es && x.member != m) || x == Entry(m, s)
    ensures Members(Upsert(es, m, s)) == Members(es) + {m}
    ensures ScoreOf(Upsert(es, m, s), m) == Some(s)
    ensures forall n :: n != m ==> ScoreOf(Upsert(es, m, s), n) == ScoreOf(es, n)
  {
    var rest := Remove(es, m);
    RemoveRanked(es, m);
    assert m !in Members(rest);
    InsertRanked(rest, Entry(m, s));
    var r := Upsert(es, m, s);
    ScoreOfListed(r, m, s);
    forall n | n != m
      ensures ScoreOf(r, n) == ScoreOf(es, n)
    {
      match ScoreOf(es, n)
      case None =>
      case Some(t) =>
        ScoreOfListed(es, n, t);
        ScoreOfListed(r, n, t);
    }
  }

  /** A ranked listing has one entry per member. */
  lemma {:induction false} RankedMembersCount(es: seq<Entry>)
    requires Ranked(es)
    ensures |Members(es)| == |es|
  {
    if es != [] {
      var rest := es[1..];
      var m := es[0].member;
      assert Ranked(rest);
      RankedMembersCount(rest);
      assert m !in Members(rest) by {
        forall e | e in rest
          ensures e.member != m
        {
          var j :| 0 <= j < |rest| && rest[j] == e;
          assert es[j + 1] == e;
        }
      }
      assert Members(es) == Members(rest) + {m} by {
        assert forall e :: e in es <==> e == es[0] || e in rest;
      }
    }
  }

  /** The tail of a ranked listing: everything but the head. */
  lemma RankedTail(a: seq<Entry>, x: Entry)
    requires Ranked(a) && a != []
    ensures Ranked(a[1..])
    ensures x in a[1..] <==> x in a && x != a[0]
  {
    if x in a[1..] {
      var k :| 1 <= k < |a| && a[k] == x;
      assert a[0].member != a[k].member;
    }
    if x in a && x != a[0] {
      var k :| 0 <= k < |a| && a[k] == x;
      assert a[1..][k - 1] == x;
    }
  }

  /** Two ranked listings with the same entries start with the same entry. */
  lemma HeadsAgree(a: seq<Entry>, b: seq<Entry>)
    requires Ranked(a) && Ranked(b) && a != []
    requires forall x :: x in a <==> x in b
    ensures b != [] && a[0] == b[0]
  {
    assert a[0] in b && b[0] in a;
    var i :| 0 <= i < |a| && a[i] == b[0];
    var j :| 0 <= j < |b| && b[j] == a[0];
    if i > 0 {
      PrecedesAsymmetric(a[0], b[0]);
    }
  }

  /** A ranked listing is determined by its entries: two ranked listings
      holding the same entries are the same listing. */
  lemma {:induction false} RankedByContents(a: seq<Entry>, b: seq<Entry>)
    requires Ranked(a) && Ranked(b)
    requires forall x :: x in a <==> x in b
    ensures a == b
    decreases |a|
  {
    if a == [] {
      assert Members(b) == Members(a);
      RankedMembersCount(b);
    } else {
      HeadsAgree(a, b);
      forall x
        ensures x in a[1..] <==> x in b[1..]
      {
        RankedTail(a, x);
        RankedTail(b, x);
      }
      RankedTail(a, a[0]);
      RankedTail(b, b[0]);
      RankedByContents(a[1..], b[1..]);
      assert a == [a[0]] + a[1..] && b == [b[0]] + b[1..];
    }
  }

  /** Upserting a member twice is upserting it once with the second score. */
  lemma UpsertTwice(es: seq<Entry>, m: string, s1: int, s2: int)
    requires Ranked(es)
    ensures Upsert(Upsert(es, m, s1), m, s2) == Upsert(es, m, s2)
  {
    var e1 := Upsert(es, m, s1);
    UpsertRanked(es, m, s1);
    UpsertRanked(e1, m, s2);
    UpsertRanked(es, m, s2);
    RankedByContents(Upsert(e1, m, s2), Upsert(es, m, s2));
  }
}
