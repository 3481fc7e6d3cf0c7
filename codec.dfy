/**
 * The codec a key is bound to, in both generations: the `mix` keys call
 * `to_redis` / `to_python` of the first generation, the other keys call
 * `encode` / `decode` of the `type_case` package.
 */
module Codec {
  import opened Python
  import opened Wire
  import TypeCase
  import GenericTypeCase
  import IntTypeCase
  import StringTypeCase

  datatype Codec = Generic | Int | String

  /** Which of the two codec interfaces a key calls. */
  datatype Generation = Mix | Package

  function Encode(c: Codec, v: PyValue): Result<PyValue> {
    match c
    case Generic => GenericTypeCase.Encode(v)
    case Int => IntTypeCase.Encode(v)
    case String => StringTypeCase.Encode(v)
  }

  function Decode(c: Codec, v: PyValue): Result<PyValue> {
    match c
    case Generic => GenericTypeCase.Decode(v)
    case Int => IntTypeCase.Decode(v)
    case String => StringTypeCase.Decode(v)
  }

  function ToRedis(c: Codec, v: PyValue): Result<PyValue> {
    match c
    case Generic => TypeCase.GenericToRedis(v)
    case Int => TypeCase.IntToRedis(v)
    case String => TypeCase.StringToRedis(v)
  }

  function ToPython(c: Codec, v: PyValue): Result<PyValue> {
    match c
    case Generic => TypeCase.GenericToPython(v)
    case Int => TypeCase.IntToPython(v)
    case String => TypeCase.StringToPython(v)
  }

  /** The value a key writes, converted by its codec. */
  function Write(g: Generation, c: Codec, v: PyValue): Result<PyValue> {
    if g.Mix? then ToRedis(c, v) else Encode(c, v)
  }

  /** The value a key reads, converted back by its codec. */
  function Read(g: Generation, c: Codec, v: PyValue): Result<PyValue> {
    if g.Mix? then ToPython(c, v) else Decode(c, v)
  }

  /** What the server hands back for a stored text, or `None`. */
  function ReadWire(g: Generation, c: Codec, w: Option<string>): Result<PyValue> {
    Read(g, c, TypeCase.FromWire(w))
  }

  /** The exception a codec raises for a value outside its domain or a text it
      cannot parse. */
  function CodecError(g: Generation): Error {
    if g.Mix? then ValueError else TypeError
  }

  /** Which values survive a write, the trip through the server, and a read. */
  predicate Lossless(c: Codec, v: PyValue) {
    !(c == Generic && v.PStr? && TypeCase.Numeric(v.s))
  }

  /** Every codec maps the absent marker to itself. */
  lemma ReadKeepsNone(g: Generation, c: Codec)
    ensures Read(g, c, PNone) == Ok(PNone)
  {
  }

  /** Writing a value, sending its `str()` and reading the answer back gives
      the value, for every codec and both generations. */
  lemma RoundTrip(g: Generation, c: Codec, v: PyValue)
    requires Write(g, c, v).Ok?
    requires Lossless(c, v)
    ensures Read(g, c, PStr(Str(Write(g, c, v).value))) == Ok(v)
  {
    match c
    case Generic =>
      if g.Mix? { TypeCase.GenericRoundTrip(v); } else { GenericTypeCase.RoundTrip(v); }
    case Int =>
      if g.Mix? { TypeCase.IntRoundTripOld(v.i); } else { IntTypeCase.RoundTrip(v.i); }
    case String =>
  }

  /** The integer codec reads any text Python's `int()` accepts as that integer;
      in particular the decimal text of an integer. */
  lemma ReadInteger(g: Generation, s: string, x: int)
    requires PyInt(s) == Some(x)
    ensures Read(g, Int, PStr(s)) == Ok(PInt(x))
  {
  }

  /** Both number-reading codecs read the decimal text of an integer as that integer. */
  lemma ReadDecimal(g: Generation, c: Codec, x: int)
    requires c != String
    ensures Read(g, c, PStr(IntToString(x))) == Ok(PInt(x))
  {
    IntRoundTrip(x);
    if c == Int {
      ReadInteger(g, IntToString(x), x);
    } else if g.Mix? {
      TypeCase.GenericReadsIntegers(x);
    } else {
      GenericTypeCase.DecodesIntegers(x);
    }
  }

  lemma ReadTextFailsWith(g: Generation, c: Codec, s: string)
    ensures Read(g, c, PStr(s)).Err? ==> c == Int && Read(g, c, PStr(s)).error == CodecError(g)
  {
  }

  /** `map(decode, items)` over a list: every item in order, or the error. */
  function ReadAll(g: Generation, c: Codec, ws: seq<string>): (r: Result<seq<PyValue>>)
    ensures r.Ok? <==> forall i :: 0 <= i < |ws| ==> Read(g, c, PStr(ws[i])).Ok?
    ensures r.Ok? ==> |r.value| == |ws| && forall i :: 0 <= i < |ws| ==> Read(g, c, PStr(ws[i])) == Ok(r.value[i])
    ensures r.Err? ==> r.error == CodecError(g)
  {
    if ws == [] then Ok([])
    else
      ReadTextFailsWith(g, c, ws[0]);
      match Read(g, c, PStr(ws[0]))
      case Err(e) => Err(e)
      case Ok(x) =>
        match ReadAll(g, c, ws[1..])
        case Err(e) => Err(e)
        case Ok(xs) =>
          assert forall i :: 1 <= i < |ws| ==> ws[i] == ws[1..][i - 1];
          Ok([x] + xs)
  }

  /** `map(decode, members)` over a set of stored members. */
  function ReadMembers(g: Generation, c: Codec, ms: set<string>): (r: Result<set<PyValue>>)
    ensures r.Ok? <==> forall w :: w in ms ==> Read(g, c, PStr(w)).Ok?
    ensures r.Ok? ==> forall w :: w in ms ==> Read(g, c, PStr(w)).value in r.value
    ensures r.Ok? ==> forall x :: x in r.value ==> exists w :: w in ms && Read(g, c, PStr(w)) == Ok(x)
    ensures r.Err? ==> r.error == CodecError(g)
  {
    if forall w :: w in ms ==> Read(g, c, PStr(w)).Ok? then
      Ok(set w | w in ms :: Read(g, c, PStr(w)).value)
    else
      Err(CodecError(g))
  }

  /** `map(encode, members)` over a set: the texts sent, or the codec error. */
  function WriteMembers(g: Generation, c: Codec, vs: set<PyValue>): (r: Result<set<string>>)
    ensures r.Ok? <==> forall v :: v in vs ==> Write(g, c, v).Ok?
    ensures r.Ok? ==> forall v :: v in vs ==> Str(Write(g, c, v).value) in r.value
    ensures r.Ok? ==> forall w :: w in r.value ==> exists v :: v in vs && Write(g, c, v).Ok? && w == Str(Write(g, c, v).value)
    ensures r.Ok? && vs != {} ==> r.value != {}
    ensures r.Err? ==> r.error == CodecError(g)
  {
    if forall v :: v in vs ==> Write(g, c, v).Ok? then
      var ws := set v | v in vs :: Str(Write(g, c, v).value);
      assert vs != {} ==> ws != {} by {
        if vs != {} {
          var v :| v in vs;
          assert Str(Write(g, c, v).value) in ws;
        }
      }
      Ok(ws)
    else
      var v :| v in vs && Write(g, c, v).Err?;
      WriteFailsWith(g, c, v);
      Err(CodecError(g))
  }

  /** Every member read from a set of texts can be written back without loss. */
  lemma ReadMembersWritable(g: Generation, c: Codec, ms: set<string>)
    requires ReadMembers(g, c, ms).Ok?
    ensures forall x :: x in ReadMembers(g, c, ms).value ==> Write(g, c, x).Ok? && Lossless(c, x)
  {
    forall x | x in ReadMembers(g, c, ms).value
      ensures Write(g, c, x).Ok? && Lossless(c, x)
    {
      var w :| w in ms && Read(g, c, PStr(w)) == Ok(x);
      WritesWhatItReads(g, c, w);
    }
  }

  /** Members the codec writes without loss, written and read back, are the members. */
  lemma MembersRewriteReadBack(g: Generation, c: Codec, vs: set<PyValue>)
    requires forall x :: x in vs ==> Write(g, c, x).Ok? && Lossless(c, x)
    ensures WriteMembers(g, c, vs).Ok?
    ensures ReadMembers(g, c, WriteMembers(g, c, vs).value) == Ok(vs)
  {
    var ws := WriteMembers(g, c, vs).value;
    forall w | w in ws
      ensures Read(g, c, PStr(w)).Ok? && Read(g, c, PStr(w)).value in vs
    {
      var v :| v in vs && Write(g, c, v).Ok? && w == Str(Write(g, c, v).value);
      RoundTrip(g, c, v);
    }
    var back := ReadMembers(g, c, ws);
    assert back.Ok?;
    forall v | v in vs
      ensures v in back.value
    {
      RoundTrip(g, c, v);
      var w := Str(Write(g, c, v).value);
      assert w in ws;
      assert Read(g, c, PStr(w)).value in back.value;
    }
    SameMembers(back.value, vs);
  }

  lemma SameMembers(a: set<PyValue>, b: set<PyValue>)
    requires forall x :: x in a ==> x in b
    requires forall x :: x in b ==> x in a
    ensures a == b
  {
  }

  /** Reading the members of a union is the union of the readings. */
  lemma ReadMembersUnion(g: Generation, c: Codec, a: set<string>, b: set<string>)
    ensures ReadMembers(g, c, a + b).Ok? <==> ReadMembers(g, c, a).Ok? && ReadMembers(g, c, b).Ok?
    ensures ReadMembers(g, c, a + b).Ok? ==>
      ReadMembers(g, c, a + b).value == ReadMembers(g, c, a).value + ReadMembers(g, c, b).value
  {
    var u := ReadMembers(g, c, a + b);
    var ra := ReadMembers(g, c, a);
    var rb := ReadMembers(g, c, b);
    if u.Ok? {
      forall x | x in u.value
        ensures x in ra.value + rb.value
      {
        var w :| w in a + b && Read(g, c, PStr(w)) == Ok(x);
        if w in a {
          assert x in ra.value;
        } else {
          assert x in rb.value;
        }
      }
      forall x | x in ra.value + rb.value
        ensures x in u.value
      {
        if x in ra.value {
          var w :| w in a && Read(g, c, PStr(w)) == Ok(x);
          assert w in a + b;
        } else {
          var w :| w in b && Read(g, c, PStr(w)) == Ok(x);
          assert w in a + b;
        }
      }
      SameMembers(u.value, ra.value + rb.value);
    } else {
      var w :| w in a + b && Read(g, c, PStr(w)).Err?;
    }
  }

  /** Texts the codec reads and writes back unchanged: then removing the
      written form of some read values removes exactly the texts they came from. */
  predicate Canonical(g: Generation, c: Codec, ms: set<string>) {
    forall w :: w in ms ==> CanonicalText(g, c, w)
  }

  predicate CanonicalText(g: Generation, c: Codec, w: string) {
    var x := Read(g, c, PStr(w));
    x.Ok? && Write(g, c, x.value).Ok? && Str(Write(g, c, x.value).value) == w
  }

  /** Adding the written form of the members read plus some values the codec
      writes without loss reads back as the members plus those values. */
  lemma UnionWritten(g: Generation, c: Codec, ms: set<string>, vs: set<PyValue>)
    requires ReadMembers(g, c, ms).Ok?
    requires forall x :: x in vs ==> Write(g, c, x).Ok? && Lossless(c, x)
    ensures var all := ReadMembers(g, c, ms).value + vs;
      WriteMembers(g, c, all).Ok? &&
      ReadMembers(g, c, ms + WriteMembers(g, c, all).value) == Ok(ReadMembers(g, c, ms).value + vs)
  {
    var read := ReadMembers(g, c, ms).value;
    var all := read + vs;
    ReadMembersWritable(g, c, ms);
    MembersRewriteReadBack(g, c, all);
    ReadMembersUnion(g, c, ms, WriteMembers(g, c, all).value);
    assert read + all == all;
  }

  /** For canonical texts, removing the written form of some of the members
      read removes exactly those members. */
  lemma RemoveWritten(g: Generation, c: Codec, ms: set<string>, vs: set<PyValue>)
    requires Canonical(g, c, ms)
    requires vs <= ReadMembers(g, c, ms).value
    ensures WriteMembers(g, c, vs).Ok?
    ensures ReadMembers(g, c, ms - WriteMembers(g, c, vs).value) == Ok(ReadMembers(g, c, ms).value - vs)
  {
    var read := ReadMembers(g, c, ms).value;
    ReadMembersWritable(g, c, ms);
    var ts := WriteMembers(g, c, vs).value;
    var left := ReadMembers(g, c, ms - ts);
    assert left.Ok?;
    forall x | x in left.value
      ensures x in read - vs
    {
      var w :| w in ms - ts && Read(g, c, PStr(w)) == Ok(x);
      assert CanonicalText(g, c, w);
    }
    forall x | x in read - vs
      ensures x in left.value
    {
      var w :| w in ms && Read(g, c, PStr(w)) == Ok(x);
      assert w in ms - ts;
    }
    SameMembers(left.value, read - vs);
  }

  /** The string codec keeps every text as it is. */
  lemma StringIsCanonical(g: Generation, ms: set<string>)
    ensures Canonical(g, String, ms)
  {
  }

  /** No texts read as no members. */
  lemma ReadNoMembers(g: Generation, c: Codec)
    ensures ReadMembers(g, c, {}) == Ok({})
  {
    var none: set<string> := {};
    var r := ReadMembers(g, c, none);
    assert r.Ok?;
    forall x | x in r.value
      ensures false
    {
      assert false;
    }
    assert r.value == {};
  }

  /** With the string codec the members read back as themselves. */
  lemma StringMembersReadAsThemselves(g: Generation, ms: set<string>)
    ensures ReadMembers(g, String, ms) == Ok(set w | w in ms :: PStr(w))
  {
    assert forall w :: w in ms ==> Read(g, String, PStr(w)) == Ok(PStr(w));
    var read := set w | w in ms :: Read(g, String, PStr(w)).value;
    assert read == set w | w in ms :: PStr(w);
  }

  /** A refused value raises the generation's codec error. */
  lemma WriteFailsWith(g: Generation, c: Codec, v: PyValue)
    ensures Write(g, c, v).Err? ==> Write(g, c, v).error == CodecError(g)
  {
  }

  /** Whatever a codec reads from a stored text is a value, not the absent
      marker, and one it can write again without loss. */
  lemma WritesWhatItReads(g: Generation, c: Codec, s: string)
    requires Read(g, c, PStr(s)).Ok?
    ensures var x := Read(g, c, PStr(s)).value;
      !x.PNone? && Write(g, c, x).Ok? && Lossless(c, x)
  {
  }

  /** `map(encode, items)`, then the driver's `str()` of each: the texts sent,
      in order, or the codec error of the first refused item. */
  function WriteAll(g: Generation, c: Codec, vs: seq<PyValue>): (r: Result<seq<string>>)
    ensures r.Ok? <==> forall i :: 0 <= i < |vs| ==> Write(g, c, vs[i]).Ok?
    ensures r.Ok? ==> |r.value| == |vs| && forall i :: 0 <= i < |vs| ==> r.value[i] == Str(Write(g, c, vs[i]).value)
    ensures r.Err? ==> r.error == CodecError(g)
  {
    if vs == [] then Ok([])
    else
      WriteFailsWith(g, c, vs[0]);
      match Write(g, c, vs[0])
      case Err(e) => Err(e)
      case Ok(x) =>
        match WriteAll(g, c, vs[1..])
        case Err(e) => Err(e)
        case Ok(xs) =>
          assert forall i :: 1 <= i < |vs| ==> vs[i] == vs[1..][i - 1];
          Ok([Str(x)] + xs)
  }

  /** Every value read from a list of texts can be written back without loss. */
  lemma ReadAllWritable(g: Generation, c: Codec, ws: seq<string>)
    requires ReadAll(g, c, ws).Ok?
    ensures forall x :: x in ReadAll(g, c, ws).value ==> Write(g, c, x).Ok? && Lossless(c, x)
  {
    var xs := ReadAll(g, c, ws).value;
    forall x | x in xs
      ensures Write(g, c, x).Ok? && Lossless(c, x)
    {
      var i :| 0 <= i < |xs| && xs[i] == x;
      WritesWhatItReads(g, c, ws[i]);
    }
  }

  /** With the string codec, reading texts and writing them back gives the texts. */
  lemma StringRewritesTexts(g: Generation, ws: seq<string>)
    ensures ReadAll(g, String, ws).Ok?
    ensures WriteAll(g, String, ReadAll(g, String, ws).value) == Ok(ws)
  {
    assert forall i :: 0 <= i < |ws| ==> Read(g, String, PStr(ws[i])) == Ok(PStr(ws[i]));
    var xs := ReadAll(g, String, ws).value;
    assert forall i :: 0 <= i < |ws| ==> xs[i] == PStr(ws[i]);
    assert WriteAll(g, String, xs).value == ws;
  }

  /** Values the codec writes without loss, written and read back, are the values. */
  lemma RewriteReadsBack(g: Generation, c: Codec, vs: seq<PyValue>)
    requires forall x :: x in vs ==> Write(g, c, x).Ok? && Lossless(c, x)
    ensures WriteAll(g, c, vs).Ok?
    ensures ReadAll(g, c, WriteAll(g, c, vs).value) == Ok(vs)
  {
    var ws := WriteAll(g, c, vs).value;
    forall i | 0 <= i < |vs|
      ensures Read(g, c, PStr(ws[i])) == Ok(vs[i])
    {
      RoundTrip(g, c, vs[i]);
    }
    assert ReadAll(g, c, ws).value == vs;
  }
}
