/**
 * The fixed vocabulary shared by every key class: the representation tags the
 * TYPE command answers with, the two ends of an inclusive Redis range, and the
 * default step of the counters.
 */
module Const {
  import opened Python

  /** The representations a key can have, `Absent` for a key that is not there. */
  datatype Representation = StringRep | ListRep | HashRep | SetRep | SortedSetRep | Absent

  /** `REDIS_TYPE[...]`: the tag TYPE answers for each representation. */
  function RedisType(t: Representation): string {
    match t
    case StringRep => "string"
    case ListRep => "list"
    case HashRep => "hash"
    case SetRep => "set"
    case SortedSetRep => "zset"
    case Absent => "none"
  }

  /** Reading a tag back; every tag names exactly one representation. */
  function FromTag(tag: string): (r: Option<Representation>)
    ensures r.Some? ==> RedisType(r.value) == tag
    ensures forall t :: RedisType(t) == tag ==> r == Some(t)
  {
    if tag == "string" then Some(StringRep)
    else if tag == "list" then Some(ListRep)
    else if tag == "hash" then Some(HashRep)
    else if tag == "set" then Some(SetRep)
    else if tag == "zset" then Some(SortedSetRep)
    else if tag == "none" then Some(Absent)
    else None
  }

  lemma RedisTypeInjective(a: Representation, b: Representation)
    requires RedisType(a) == RedisType(b)
    ensures a == b
  {
    assert FromTag(RedisType(a)) == Some(a);
  }

  /** The left and right ends of an inclusive LRANGE/LTRIM/ZRANGE range. */
  const Leftmost: int := 0
  const Rightmost: int := -1

  const DefaultIncrement: int := 1
  const DefaultDecrement: int := 1
}
