/**
 * `Set` of the second generation: a server set whose members go through
 * `encode` / `decode`, so every failure is `TypeError`. The in-place
 * operators also take a Python set: `|=` adds, `&=` and `-=` remove, the
 * written form of members computed from `set(self)`.
 */
module KeySet {
  import opened Python
  import opened Wire
  import opened Const
  import S = Store
  import opened SetCommands
  import opened RedisClient
  import opened Codec
  import opened KeyHelper
  import opened BaseKey
  import C = CommonKeyPropertyMixin

  /** The right operand of a comparison or an operator: a set key or a Python set. */
  datatype Other = SetKey(key: Key) | PySet(members: set<PyValue>)

  /** `set(self)`: every member decoded; `TypeError` for a key of another
      type or a text the codec cannot read. */
  function Members(st: S.Store, k: string, c: Codec): (r: Result<set<PyValue>>)
    ensures SetAt(st, k).Err? ==> r == Err(TypeError)
    ensures SetAt(st, k).Ok? ==> r == ReadMembers(Package, c, MembersOf(st, k))
    ensures k !in st.data ==> r == Ok({})
    ensures r.Err? ==> r.error == TypeError
  {
    match SetAt(st, k)
    case Err(_) => Err(TypeError)
    case Ok(ms) => ReadNoMembers(Package, c); ReadMembers(Package, c, ms)
  }

  /** `set(other)`: a key's own reading of its members, or the Python set. */
  function OtherMembers(o: Other): (r: Result<set<PyValue>>)
    reads if o.SetKey? then {o.key.client} else {}
    ensures o.PySet? ==> r == Ok(o.members)
    ensures o.SetKey? ==> r == Members(o.key.client.db, o.key.name, o.key.codec)
  {
    match o
    case SetKey(k) => Members(k.client.db, k.name, k.codec)
    case PySet(s) => Ok(s)
  }

  /** `__len__`: the number of members, 0 for an absent key. */
  method Len(key: Key) returns (r: Result<nat>)
    ensures r.Err? <==> SetAt(key.client.db, key.name).Err?
    ensures r.Err? ==> r.error == TypeError
    ensures r.Ok? ==> r.value == |MembersOf(key.client.db, key.name)|
  {
    r := SCard(key.client.db, key.name);
    if r.Err? {
      return Err(TypeError);
    }
  }

  /** `__iter__`. */
  method Iter(key: Key) returns (r: Result<set<PyValue>>)
    ensures r == Members(key.client.db, key.name, key.codec)
  {
    var ms := SetAt(key.client.db, key.name);
    if ms.Err? {
      return Err(TypeError);
    }
    r := ReadMembers(Package, key.codec, ms.value);
  }

  /** `element in s`: whether the element's encoding is a member. */
  method Contains(key: Key, element: PyValue) returns (r: Result<bool>)
    ensures r.Err? <==> Write(Package, key.codec, element).Err? || SetAt(key.client.db, key.name).Err?
    ensures r.Err? ==> r.error == TypeError
    ensures r.Ok? ==> (r.value <==> Str(Write(Package, key.codec, element).value) in MembersOf(key.client.db, key.name))
  {
    var text := Write(Package, key.codec, element);
    if text.Err? {
      WriteFailsWith(Package, key.codec, element);
      return Err(text.error);
    }
    r := RaiseWhenWrongType(SIsMember(key.client.db, key.name, Str(text.value)));
  }

  /** `add(element)`: the element's encoding becomes a member. */
  method Add(key: Key, element: PyValue) returns (r: Result<()>)
    modifies key.client
    ensures r.Err? <==> Write(Package, key.codec, element).Err? || SetAt(old(key.client.db), key.name).Err?
    ensures r.Err? ==> r.error == TypeError && key.client.db == old(key.client.db)
    ensures r.Ok? ==>
      MembersOf(key.client.db, key.name) ==
      MembersOf(old(key.client.db), key.name) + {Str(Write(Package, key.codec, element).value)}
    ensures r.Ok? ==> S.SameElsewhere(old(key.client.db), key.client.db, key.name)
  {
    var text := Write(Package, key.codec, element);
    if text.Err? {
      WriteFailsWith(Package, key.codec, element);
      return Err(text.error);
    }
    var added := key.client.Send(SAdd(key.client.db, key.name, {Str(text.value)}));
    added := RaiseWhenWrongType(added);
    if added.Err? {
      return Err(added.error);
    }
    r := Ok(());
  }

  /** `remove(element)`: the element's encoding is no longer a member; a
      non-member is always a `KeyError`. */
  method Remove(key: Key, element: PyValue) returns (r: Result<()>)
    modifies key.client
    ensures Write(Package, key.codec, element).Err? || SetAt(old(key.client.db), key.name).Err? ==>
      r == Err(TypeError) && key.client.db == old(key.client.db)
    ensures Write(Package, key.codec, element).Ok? && SetAt(old(key.client.db), key.name).Ok? ==>
      var t := Str(Write(Package, key.codec, element).value);
      (t in MembersOf(old(key.client.db), key.name) ==> r == Ok(())) &&
      (t !in MembersOf(old(key.client.db), key.name) ==> r == Err(KeyError)) &&
      MembersOf(key.client.db, key.name) == MembersOf(old(key.client.db), key.name) - {t} &&
      S.SameElsewhere(old(key.client.db), key.client.db, key.name)
  {
    var text := Write(Package, key.codec, element);
    if text.Err? {
      WriteFailsWith(Package, key.codec, element);
      return Err(text.error);
    }
    var t := Str(text.value);
    var removed := key.client.Send(SRem(key.client.db, key.name, {t}));
    removed := RaiseWhenWrongType(removed);
    if removed.Err? {
      return Err(removed.error);
    }
    assert removed.value == 0 <==> t !in MembersOf(old(key.client.db), key.name) by {
      assert t in MembersOf(old(key.client.db), key.name) ==> {t} * MembersOf(old(key.client.db), key.name) == {t};
    }
    if removed.value != 1 {
      return Err(KeyError);
    }
    r := Ok(());
  }

  /** `pop()`: removes the member the server picks, `choice`, and returns it
      decoded; `KeyError` for an empty set. */
  method Pop(key: Key, choice: string) returns (r: Result<PyValue>)
    requires SetAt(key.client.db, key.name).Ok? && MembersOf(key.client.db, key.name) != {} ==>
      choice in MembersOf(key.client.db, key.name)
    modifies key.client
    ensures SetAt(old(key.client.db), key.name).Err? ==> r == Err(TypeError)
    ensures SetAt(old(key.client.db), key.name).Ok? && MembersOf(old(key.client.db), key.name) == {} ==>
      r == Err(KeyError)
    ensures SetAt(old(key.client.db), key.name).Err? || MembersOf(old(key.client.db), key.name) == {} ==>
      key.client.db == old(key.client.db)
    ensures SetAt(old(key.client.db), key.name).Ok? && MembersOf(old(key.client.db), key.name) != {} ==>
      r == Read(Package, key.codec, PStr(choice)) &&
      MembersOf(key.client.db, key.name) == MembersOf(old(key.client.db), key.name) - {choice} &&
      S.SameElsewhere(old(key.client.db), key.client.db, key.name)
  {
    var popped := key.client.Send(SPop(key.client.db, key.name, choice));
    popped := RaiseWhenWrongType(popped);
    if popped.Err? {
      return Err(popped.error);
    }
    if popped.value.None? {
      return Err(KeyError);
    }
    r := Read(Package, key.codec, PStr(popped.value.value));
  }

  /** `random()`: the member the server picks, `choice`, decoded, without
      removing it; `None` for an empty set. */
  method Random(key: Key, choice: string) returns (r: Result<PyValue>)
    requires SetAt(key.client.db, key.name).Ok? && MembersOf(key.client.db, key.name) != {} ==>
      choice in MembersOf(key.client.db, key.name)
    ensures SetAt(key.client.db, key.name).Err? ==> r == Err(TypeError)
    ensures SetAt(key.client.db, key.name).Ok? && MembersOf(key.client.db, key.name) == {} ==> r == Ok(PNone)
    ensures SetAt(key.client.db, key.name).Ok? && MembersOf(key.client.db, key.name) != {} ==>
      r == Read(Package, key.codec, PStr(choice)) && choice in MembersOf(key.client.db, key.name)
  {
    var picked := RaiseWhenWrongType(SRandMember(key.client.db, key.name, choice));
    if picked.Err? {
      return Err(picked.error);
    }
    r := ReadWire(Package, key.codec, picked.value);
  }

  /** `move(destination, member)`: SMOVE of the member's encoding to a set key;
      `KeyError` when it is not a member of this set. */
  method Move(key: Key, destination: Key, member: PyValue) returns (r: Result<()>)
    modifies key.client
    ensures Write(Package, key.codec, member).Err? ==> r == Err(TypeError) && key.client.db == old(key.client.db)
    ensures Write(Package, key.codec, member).Ok? ==>
      var t := Str(Write(Package, key.codec, member).value);
      var moved := SMove(old(key.client.db), key.name, destination.name, t);
      (moved.Err? ==> r == Err(TypeError) && key.client.db == old(key.client.db)) &&
      (moved.Ok? ==> key.client.db == moved.value.after) &&
      (moved.Ok? && !moved.value.reply ==> r == Err(KeyError)) &&
      (moved.Ok? && moved.value.reply ==> r == Ok(())) &&
      (r.Ok? && key.name != destination.name ==>
        MembersOf(key.client.db, key.name) == MembersOf(old(key.client.db), key.name) - {t} &&
        MembersOf(key.client.db, destination.name) == MembersOf(old(key.client.db), destination.name) + {t})
    ensures r.Ok? ==>
      Write(Package, key.codec, member).Ok? &&
      Str(Write(Package, key.codec, member).value) in MembersOf(old(key.client.db), key.name)
  {
    var text := Write(Package, key.codec, member);
    if text.Err? {
      WriteFailsWith(Package, key.codec, member);
      return Err(text.error);
    }
    var moved := key.client.Send(SMove(key.client.db, key.name, destination.name, Str(text.value)));
    moved := RaiseWhenWrongType(moved);
    if moved.Err? {
      return Err(moved.error);
    }
    if !moved.value {
      return Err(KeyError);
    }
    r := Ok(());
  }

  /** Both operands' members, `set(self)` read first. */
  function Operands(st: S.Store, key: Key, other: Other): (r: Result<(set<PyValue>, set<PyValue>)>)
    reads if other.SetKey? then {other.key.client} else {}
    ensures r.Ok? <==> Members(st, key.name, key.codec).Ok? && OtherMembers(other).Ok?
    ensures r.Err? ==> r.error == TypeError
    ensures r.Ok? ==> r.value == (Members(st, key.name, key.codec).value, OtherMembers(other).value)
  {
    var mine :- Members(st, key.name, key.codec);
    var theirs :- OtherMembers(other);
    Ok((mine, theirs))
  }

  /** `isdisjoint(other)`: no member in common; `set(other)` is read first. */
  method IsDisjoint(key: Key, other: Other) returns (r: Result<bool>)
    ensures r.Ok? <==> Operands(key.client.db, key, other).Ok?
    ensures r.Err? ==> r.error == TypeError
    ensures r.Ok? ==> var (a, b) := Operands(key.client.db, key, other).value;
      (r.value <==> forall x :: x in a ==> x !in b)
  {
    var theirs := OtherMembers(other);
    if theirs.Err? {
      return Err(theirs.error);
    }
    var mine := Iter(key);
    if mine.Err? {
      return Err(mine.error);
    }
    r := Ok(mine.value !! theirs.value);
  }

  /** `<=` and `issubset`: every member of the key is in `other`. */
  method Le(key: Key, other: Other) returns (r: Result<bool>)
    ensures r.Ok? <==> Operands(key.client.db, key, other).Ok?
    ensures r.Err? ==> r.error == TypeError
    ensures r.Ok? ==> var (a, b) := Operands(key.client.db, key, other).value;
      (r.value <==> forall x :: x in a ==> x in b)
  {
    var both := Operands(key.client.db, key, other);
    if both.Err? {
      return Err(both.error);
    }
    r := Ok(both.value.0 <= both.value.1);
  }

  /** `<`: a subset, and `other` has a member more. */
  method Lt(key: Key, other: Other) returns (r: Result<bool>)
    ensures r.Ok? <==> Operands(key.client.db, key, other).Ok?
    ensures r.Err? ==> r.error == TypeError
    ensures r.Ok? ==> var (a, b) := Operands(key.client.db, key, other).value;
      (r.value <==> (forall x :: x in a ==> x in b) && exists y :: y in b && y !in a)
  {
    var both := Operands(key.client.db, key, other);
    if both.Err? {
      return Err(both.error);
    }
    r := Ok(both.value.0 < both.value.1);
    MissingWitness(both.value.0, both.value.1);
  }

  /** `>=` and `issuperset`: every member of `other` is in the key. */
  method Ge(key: Key, other: Other) returns (r: Result<bool>)
    ensures r.Ok? <==> Operands(key.client.db, key, other).Ok?
    ensures r.Err? ==> r.error == TypeError
    ensures r.Ok? ==> var (a, b) := Operands(key.client.db, key, other).value;
      (r.value <==> forall y :: y in b ==> y in a)
  {
    var both := Operands(key.client.db, key, other);
    if both.Err? {
      return Err(both.error);
    }
    r := Ok(both.value.0 >= both.value.1);
  }

  /** `>`: a superset, and the key has a member more. */
  method Gt(key: Key, other: Other) returns (r: Result<bool>)
    ensures r.Ok? <==> Operands(key.client.db, key, other).Ok?
    ensures r.Err? ==> r.error == TypeError
    ensures r.Ok? ==> var (a, b) := Operands(key.client.db, key, other).value;
      (r.value <==> (forall y :: y in b ==> y in a) && exists x :: x in a && x !in b)
  {
    var both := Operands(key.client.db, key, other);
    if both.Err? {
      return Err(both.error);
    }
    r := Ok(both.value.0 > both.value.1);
    MissingWitness(both.value.1, both.value.0);
  }

  /** A proper subset misses some member of the bigger set, and only then. */
  lemma MissingWitness(a: set<PyValue>, b: set<PyValue>)
    ensures a < b <==> (forall x :: x in a ==> x in b) && exists y :: y in b && y !in a
  {
    if a <= b && a != b {
      assert !(b <= a);
      var y :| y in b && y !in a;
    }
  }

  /** `|` (and `__ror__`): the members of either operand. */
  method Or(key: Key, other: Other) returns (r: Result<set<PyValue>>)
    ensures r.Ok? <==> Operands(key.client.db, key, other).Ok?
    ensures r.Err? ==> r.error == TypeError
    ensures r.Ok? ==> var (a, b) := Operands(key.client.db, key, other).value;
      forall x :: x in r.value <==> x in a || x in b
  {
    var both := Operands(key.client.db, key, other);
    if both.Err? {
      return Err(both.error);
    }
    r := Ok(both.value.0 + both.value.1);
  }

  /** `&` (and `__rand__`): the members of both operands. */
  method And(key: Key, other: Other) returns (r: Result<set<PyValue>>)
    ensures r.Ok? <==> Operands(key.client.db, key, other).Ok?
    ensures r.Err? ==> r.error == TypeError
    ensures r.Ok? ==> var (a, b) := Operands(key.client.db, key, other).value;
      forall x :: x in r.value <==> x in a && x in b
  {
    var both := Operands(key.client.db, key, other);
    if both.Err? {
      return Err(both.error);
    }
    r := Ok(both.value.0 * both.value.1);
  }

  /** `-`: the key's members that `other` lacks. */
  method Sub(key: Key, other: Other) returns (r: Result<set<PyValue>>)
    ensures r.Ok? <==> Operands(key.client.db, key, other).Ok?
    ensures r.Err? ==> r.error == TypeError
    ensures r.Ok? ==> var (a, b) := Operands(key.client.db, key, other).value;
      forall x :: x in r.value <==> x in a && x !in b
  {
    var both := Operands(key.client.db, key, other);
    if both.Err? {
      return Err(both.error);
    }
    r := Ok(both.value.0 - both.value.1);
  }

  /** `other - s`: the operands swapped, and `set(other)` read first. */
  method RSub(key: Key, other: Other) returns (r: Result<set<PyValue>>)
    ensures r.Ok? <==> Operands(key.client.db, key, other).Ok?
    ensures r.Err? ==> r.error == TypeError
    ensures r.Ok? ==> var (a, b) := Operands(key.client.db, key, other).value;
      forall x :: x in r.value <==> x in b && x !in a
  {
    var theirs := OtherMembers(other);
    if theirs.Err? {
      return Err(theirs.error);
    }
    var mine := Iter(key);
    if mine.Err? {
      return Err(mine.error);
    }
    r := Ok(theirs.value - mine.value);
  }

  /** `^` (and `__rxor__`): the members of exactly one operand. */
  method Xor(key: Key, other: Other) returns (r: Result<set<PyValue>>)
    ensures r.Ok? <==> Operands(key.client.db, key, other).Ok?
    ensures r.Err? ==> r.error == TypeError
    ensures r.Ok? ==> var (a, b) := Operands(key.client.db, key, other).value;
      forall x :: x in r.value <==> (x in a <==> x !in b)
  {
    var both := Operands(key.client.db, key, other);
    if both.Err? {
      return Err(both.error);
    }
    var (a, b) := both.value;
    r := Ok((a - b) + (b - a));
  }

  /** Whether every value of a Python set survives the codec. */
  predicate AllLossless(c: Codec, vs: set<PyValue>) {
    forall x :: x in vs ==> Lossless(c, x)
  }

  /** `|=` with a Python set: SADD of the encoding of `set(self) | other`. An
      empty union sends SADD without members, which the server refuses. */
  method IOrSet(key: Key, other: set<PyValue>) returns (r: Result<Key>)
    modifies key.client
    ensures Members(old(key.client.db), key.name, key.codec).Err? ==> r == Err(TypeError)
    ensures r.Ok? <==>
      Members(old(key.client.db), key.name, key.codec).Ok? &&
      WriteMembers(Package, key.codec, Members(old(key.client.db), key.name, key.codec).value + other).Ok? &&
      Members(old(key.client.db), key.name, key.codec).value + other != {}
    ensures r.Err? ==> r.error == TypeError && key.client.db == old(key.client.db)
    ensures r.Ok? ==> r.value == key
    ensures r.Ok? ==>
      var all := Members(old(key.client.db), key.name, key.codec).value + other;
      MembersOf(key.client.db, key.name) ==
      MembersOf(old(key.client.db), key.name) + WriteMembers(Package, key.codec, all).value
    ensures r.Ok? && AllLossless(key.codec, other) ==>
      Members(key.client.db, key.name, key.codec) ==
      Ok(Members(old(key.client.db), key.name, key.codec).value + other)
    ensures S.SameElsewhere(old(key.client.db), key.client.db, key.name)
  {
    var mine := Iter(key);
    if mine.Err? {
      return Err(mine.error);
    }
    var all := mine.value + other;
    var texts := WriteMembers(Package, key.codec, all);
    if texts.Err? {
      return Err(texts.error);
    }
    var st := key.client.db;
    var added := key.client.Send(SAdd(key.client.db, key.name, texts.value));
    added := RaiseWhenWrongType(added);
    if added.Err? {
      return Err(added.error);
    }
    if AllLossless(key.codec, other) {
      UnionWritten(Package, key.codec, MembersOf(st, key.name), other);
    }
    r := Ok(key);
  }

  /** `&=` with a Python set: SREM of the encoding of `set(self) - other`, so
      `set(self) & other` is left. Nothing to remove sends SREM without
      members, which the server refuses. */
  method IAndSet(key: Key, other: set<PyValue>) returns (r: Result<Key>)
    modifies key.client
    ensures Members(old(key.client.db), key.name, key.codec).Err? ==> r == Err(TypeError)
    ensures r.Ok? <==>
      Members(old(key.client.db), key.name, key.codec).Ok? &&
      Members(old(key.client.db), key.name, key.codec).value - other != {}
    ensures r.Err? ==> r.error == TypeError && key.client.db == old(key.client.db)
    ensures r.Ok? ==> r.value == key
    ensures r.Ok? ==>
      var gone := Members(old(key.client.db), key.name, key.codec).value - other;
      WriteMembers(Package, key.codec, gone).Ok? &&
      MembersOf(key.client.db, key.name) ==
      MembersOf(old(key.client.db), key.name) - WriteMembers(Package, key.codec, gone).value
    ensures r.Ok? && Canonical(Package, key.codec, MembersOf(old(key.client.db), key.name)) ==>
      Members(key.client.db, key.name, key.codec) ==
      Ok(Members(old(key.client.db), key.name, key.codec).value * other)
    ensures S.SameElsewhere(old(key.client.db), key.client.db, key.name)
  {
    var mine := Iter(key);
    if mine.Err? {
      return Err(mine.error);
    }
    var st := key.client.db;
    var gone := mine.value - other;
    ReadMembersWritable(Package, key.codec, MembersOf(st, key.name));
    var texts := WriteMembers(Package, key.codec, gone);
    var removed := key.client.Send(SRem(key.client.db, key.name, texts.value));
    removed := RaiseWhenWrongType(removed);
    if removed.Err? {
      return Err(removed.error);
    }
    if Canonical(Package, key.codec, MembersOf(st, key.name)) {
      RemovedReadsBack(st, key.client.db, key.name, key.codec, gone);
      assert mine.value - gone == mine.value * other;
    }
    r := Ok(key);
  }

  /** After SREM of the texts written for some of a canonical set's
      readings, the set reads as its old reading without them. */
  lemma RemovedReadsBack(st: S.Store, after: S.Store, k: string, c: Codec, gone: set<PyValue>)
    requires SetAt(st, k).Ok? && SetAt(after, k).Ok?
    requires Canonical(Package, c, MembersOf(st, k))
    requires Members(st, k, c).Ok? && gone <= Members(st, k, c).value
    requires WriteMembers(Package, c, gone).Ok?
    requires MembersOf(after, k) == MembersOf(st, k) - WriteMembers(Package, c, gone).value
    ensures Members(after, k, c) == Ok(Members(st, k, c).value - gone)
  {
    RemoveWritten(Package, c, MembersOf(st, k), gone);
  }

  /** `-=` with a Python set: SREM of the encoding of `set(self) & other`, so
      `set(self) - other` is left. */
  method ISubSet(key: Key, other: set<PyValue>) returns (r: Result<Key>)
    modifies key.client
    ensures Members(old(key.client.db), key.name, key.codec).Err? ==> r == Err(TypeError)
    ensures r.Ok? <==>
      Members(old(key.client.db), key.name, key.codec).Ok? &&
      Members(old(key.client.db), key.name, key.codec).value * other != {}
    ensures r.Err? ==> r.error == TypeError && key.client.db == old(key.client.db)
    ensures r.Ok? ==> r.value == key
    ensures r.Ok? ==>
      var gone := Members(old(key.client.db), key.name, key.codec).value * other;
      WriteMembers(Package, key.codec, gone).Ok? &&
      MembersOf(key.client.db, key.name) ==
      MembersOf(old(key.client.db), key.name) - WriteMembers(Package, key.codec, gone).value
    ensures r.Ok? && Canonical(Package, key.codec, MembersOf(old(key.client.db), key.name)) ==>
      Members(key.client.db, key.name, key.codec) ==
      Ok(Members(old(key.client.db), key.name, key.codec).value - other)
    ensures S.SameElsewhere(old(key.client.db), key.client.db, key.name)
  {
    var mine := Iter(key);
    if mine.Err? {
      return Err(mine.error);
    }
    var st := key.client.db;
    var gone := mine.value * other;
    ReadMembersWritable(Package, key.codec, MembersOf(st, key.name));
    var texts := WriteMembers(Package, key.codec, gone);
    var removed := key.client.Send(SRem(key.client.db, key.name, texts.value));
    removed := RaiseWhenWrongType(removed);
    if removed.Err? {
      return Err(removed.error);
    }
    if Canonical(Package, key.codec, MembersOf(st, key.name)) {
      RemovedReadsBack(st, key.client.db, key.name, key.codec, gone);
      assert mine.value - gone == mine.value - other;
    }
    r := Ok(key);
  }

  /** `|=` with a key: the server's union of the two keys replaces this key's members. */
  method IOrKey(key: Key, other: Key) returns (r: Result<Key>)
    modifies key.client
    ensures r.Ok? <==> SUnion(old(key.client.db), [key.name, other.name]).Ok?
    ensures r.Err? ==> r.error == TypeError && key.client.db == old(key.client.db)
    ensures r.Ok? ==> r.value == key
    ensures r.Ok? ==>
      MembersOf(key.client.db, key.name) ==
      MembersOf(old(key.client.db), key.name) + MembersOf(old(key.client.db), other.name)
    ensures r.Ok? ==> S.SameElsewhere(old(key.client.db), key.client.db, key.name)
  {
    var st := key.client.db;
    var stored := key.client.Send(SUnionStore(key.client.db, key.name, [key.name, other.name]));
    stored := RaiseWhenWrongType(stored);
    if stored.Err? {
      return Err(stored.error);
    }
    UnionStored(st, key.name, other.name);
    r := Ok(key);
  }

  /** The guard of `&=` with a key: the operand exists and is not a set, as
      its own client reports. */
  predicate Refused(other: Key)
    reads other.client
  {
    other.name in other.client.db.data && S.RepOf(other.client.db, other.name) != SetRep
  }

  /** `&=` with a key: the server's intersection replaces this key's members. */
  method IAndKey(key: Key, other: Key) returns (r: Result<Key>)
    modifies key.client
    ensures old(Refused(other)) ==> r == Err(TypeError)
    ensures !old(Refused(other)) ==> (r.Ok? <==> SInter(old(key.client.db), [key.name, other.name]).Ok?)
    ensures r.Err? ==> r.error == TypeError && key.client.db == old(key.client.db)
    ensures r.Ok? ==> r.value == key
    ensures r.Ok? && SetAt(old(key.client.db), other.name).Ok? ==>
      MembersOf(key.client.db, key.name) ==
      MembersOf(old(key.client.db), key.name) * MembersOf(old(key.client.db), other.name)
    ensures r.Ok? ==> S.SameElsewhere(old(key.client.db), key.client.db, key.name)
  {
    var present := C.Exists(other);
    if present {
      var tag := C.Represent(other);
      if tag != RedisType(SetRep) {
        return Err(TypeError);
      }
    }
    var st := key.client.db;
    var stored := key.client.Send(SInterStore(key.client.db, key.name, [key.name, other.name]));
    stored := RaiseWhenWrongType(stored);
    if stored.Err? {
      return Err(stored.error);
    }
    if SetAt(st, other.name).Ok? {
      InterStored(st, key.name, other.name);
    }
    r := Ok(key);
  }

  /** `-=` with a key: the server's difference replaces this key's members. */
  method ISubKey(key: Key, other: Key) returns (r: Result<Key>)
    modifies key.client
    ensures r.Ok? <==> SDiff(old(key.client.db), [key.name, other.name]).Ok?
    ensures r.Err? ==> r.error == TypeError && key.client.db == old(key.client.db)
    ensures r.Ok? ==> r.value == key
    ensures r.Ok? ==>
      MembersOf(key.client.db, key.name) ==
      MembersOf(old(key.client.db), key.name) - MembersOf(old(key.client.db), other.name)
    ensures r.Ok? ==> S.SameElsewhere(old(key.client.db), key.client.db, key.name)
  {
    var st := key.client.db;
    var stored := key.client.Send(SDiffStore(key.client.db, key.name, [key.name, other.name]));
    stored := RaiseWhenWrongType(stored);
    if stored.Err? {
      return Err(stored.error);
    }
    DiffStored(st, key.name, other.name);
    r := Ok(key);
  }

  /** With the string codec every stored text is canonical, so `s &= py_set`
      leaves exactly the common members and `s -= py_set` the others. */
  lemma StringInPlace(st: S.Store, k: string)
    ensures Canonical(Package, String, MembersOf(st, k))
  {
    StringIsCanonical(Package, MembersOf(st, k));
  }
}
