/**
 * `Set` of the first generation: a server set whose members go through
 * `to_redis` / `to_python`. Membership changes are the server's; the
 * comparisons and the binary operators work on `set(self)` and `set(other)`;
 * the in-place operators store the server's union, intersection or
 * difference of two keys in `self`. A wrong-type reply becomes `TypeError`.
 */
module MixSet {
  import opened Python
  import opened Wire
  import opened Const
  import S = Store
  import opened SetCommands
  import opened RedisClient
  import opened Codec
  import opened KeyHelper
  import opened MixKey
  import MixHelper

  /** The right operand of a comparison or an operator: a set key or a Python set. */
  datatype Other = SetKey(key: Key) | PySet(members: set<PyValue>)

  /** `set(self)`: every member read by the codec; `TypeError` for a key of
      another type, `ValueError` for a text the codec cannot read. */
  function Members(st: S.Store, k: string, c: Codec): (r: Result<set<PyValue>>)
    ensures SetAt(st, k).Err? ==> r == Err(TypeError)
    ensures SetAt(st, k).Ok? ==> r == ReadMembers(Mix, c, MembersOf(st, k))
    ensures k !in st.data ==> r == Ok({})
    ensures r.Err? ==> r.error == TypeError || r.error == ValueError
  {
    match SetAt(st, k)
    case Err(_) => Err(TypeError)
    case Ok(ms) => ReadNoMembers(Mix, c); ReadMembers(Mix, c, ms)
  }

  /** `get_members(other)`: a key's own reading of its members, or the Python set. */
  function OtherMembers(o: Other): (r: Result<set<PyValue>>)
    reads if o.SetKey? then {o.key.client} else {}
    ensures o.PySet? ==> r == Ok(o.members)
    ensures o.SetKey? ==> r == Members(o.key.client.db, o.key.name, o.key.codec)
  {
    match o
    case SetKey(k) => Members(k.client.db, k.name, k.codec)
    case PySet(s) => Ok(s)
  }

  /** With the string codec `set(self)` is the set of stored texts. */
  lemma StringMembers(st: S.Store, k: string)
    requires SetAt(st, k).Ok?
    ensures Members(st, k, String) == Ok(set w | w in MembersOf(st, k) :: PStr(w))
  {
    StringMembersReadAsThemselves(Mix, MembersOf(st, k));
  }

  /** `__len__`: the number of members, 0 for an absent key. */
  method Len(key: Key) returns (r: Result<nat>)
    ensures r.Err? <==> SetAt(key.client.db, key.name).Err?
    ensures r.Err? ==> r.error == TypeError
    ensures r.Ok? ==> r.value == |MembersOf(key.client.db, key.name)|
  {
    r := SCard(key.client.db, key.name);
    if r.Err? {
      return Err(TypeError);
    }
  }

  /** `__iter__`. */
  method Iter(key: Key) returns (r: Result<set<PyValue>>)
    ensures r == Members(key.client.db, key.name, key.codec)
  {
    var ms := SetAt(key.client.db, key.name);
    if ms.Err? {
      return Err(TypeError);
    }
    r := ReadMembers(Mix, key.codec, ms.value);
  }

  /** `element in s`: whether the element's text is a member. */
  method Contains(key: Key, element: PyValue) returns (r: Result<bool>)
    ensures Write(Mix, key.codec, element).Err? ==> r == Err(ValueError)
    ensures Write(Mix, key.codec, element).Ok? && SetAt(key.client.db, key.name).Err? ==> r == Err(TypeError)
    ensures r.Ok? <==> Write(Mix, key.codec, element).Ok? && SetAt(key.client.db, key.name).Ok?
    ensures r.Ok? ==> (r.value <==> Str(Write(Mix, key.codec, element).value) in MembersOf(key.client.db, key.name))
  {
    var text := Write(Mix, key.codec, element);
    if text.Err? {
      WriteFailsWith(Mix, key.codec, element);
      return Err(text.error);
    }
    r := RaiseWhenWrongType(SIsMember(key.client.db, key.name, Str(text.value)));
  }

  /** `add(element)`: the element's text becomes a member; an absent key
      becomes a set of one. */
  method Add(key: Key, element: PyValue) returns (r: Result<()>)
    modifies key.client
    ensures Write(Mix, key.codec, element).Err? ==> r == Err(ValueError)
    ensures Write(Mix, key.codec, element).Ok? && SetAt(old(key.client.db), key.name).Err? ==> r == Err(TypeError)
    ensures r.Ok? <==> Write(Mix, key.codec, element).Ok? && SetAt(old(key.client.db), key.name).Ok?
    ensures r.Err? ==> key.client.db == old(key.client.db)
    ensures r.Ok? ==>
      MembersOf(key.client.db, key.name) ==
      MembersOf(old(key.client.db), key.name) + {Str(Write(Mix, key.codec, element).value)}
    ensures r.Ok? ==> S.SameElsewhere(old(key.client.db), key.client.db, key.name)
  {
    var text := Write(Mix, key.codec, element);
    if text.Err? {
      WriteFailsWith(Mix, key.codec, element);
      return Err(text.error);
    }
    var added := key.client.Send(SAdd(key.client.db, key.name, {Str(text.value)}));
    added := RaiseWhenWrongType(added);
    if added.Err? {
      return Err(added.error);
    }
    r := Ok(());
  }

  /** `remove(element, check)`: the element's text is no longer a member; a
      non-member is a `KeyError` only when `check` is set. */
  method Remove(key: Key, element: PyValue, check: bool := false) returns (r: Result<()>)
    modifies key.client
    ensures Write(Mix, key.codec, element).Err? ==> r == Err(ValueError)
    ensures Write(Mix, key.codec, element).Ok? && SetAt(old(key.client.db), key.name).Err? ==> r == Err(TypeError)
    ensures Write(Mix, key.codec, element).Ok? && SetAt(old(key.client.db), key.name).Ok? ==>
      var t := Str(Write(Mix, key.codec, element).value);
      (r.Ok? <==> t in MembersOf(old(key.client.db), key.name) || !check) &&
      (r.Err? ==> r.error == KeyError) &&
      MembersOf(key.client.db, key.name) == MembersOf(old(key.client.db), key.name) - {t} &&
      S.SameElsewhere(old(key.client.db), key.client.db, key.name)
    ensures Write(Mix, key.codec, element).Err? || SetAt(old(key.client.db), key.name).Err? ==>
      key.client.db == old(key.client.db)
  {
    var text := Write(Mix, key.codec, element);
    if text.Err? {
      WriteFailsWith(Mix, key.codec, element);
      return Err(text.error);
    }
    var t := Str(text.value);
    var removed := key.client.Send(SRem(key.client.db, key.name, {t}));
    removed := RaiseWhenWrongType(removed);
    if removed.Err? {
      return Err(removed.error);
    }
    assert removed.value == 0 <==> t !in MembersOf(old(key.client.db), key.name) by {
      assert t in MembersOf(old(key.client.db), key.name) ==> {t} * MembersOf(old(key.client.db), key.name) == {t};
    }
    if removed.value == 0 && check {
      return Err(KeyError);
    }
    r := Ok(());
  }

  /** `pop()`: removes the member the server picks, `choice`, and returns it
      read by the codec; `KeyError` for an empty set. */
  method Pop(key: Key, choice: string) returns (r: Result<PyValue>)
    requires SetAt(key.client.db, key.name).Ok? && MembersOf(key.client.db, key.name) != {} ==>
      choice in MembersOf(key.client.db, key.name)
    modifies key.client
    ensures SetAt(old(key.client.db), key.name).Err? ==> r == Err(TypeError)
    ensures SetAt(old(key.client.db), key.name).Ok? && MembersOf(old(key.client.db), key.name) == {} ==>
      r == Err(KeyError)
    ensures SetAt(old(key.client.db), key.name).Err? || MembersOf(old(key.client.db), key.name) == {} ==>
      key.client.db == old(key.client.db)
    ensures SetAt(old(key.client.db), key.name).Ok? && MembersOf(old(key.client.db), key.name) != {} ==>
      r == Read(Mix, key.codec, PStr(choice)) &&
      MembersOf(key.client.db, key.name) == MembersOf(old(key.client.db), key.name) - {choice} &&
      S.SameElsewhere(old(key.client.db), key.client.db, key.name)
  {
    var popped := key.client.Send(SPop(key.client.db, key.name, choice));
    popped := RaiseWhenWrongType(popped);
    if popped.Err? {
      return Err(popped.error);
    }
    if popped.value.None? {
      return Err(KeyError);
    }
    r := Read(Mix, key.codec, PStr(popped.value.value));
  }

  /** `random()`: the member the server picks, `choice`, read by the codec,
      without removing it; `None` for an empty set. */
  method Random(key: Key, choice: string) returns (r: Result<PyValue>)
    requires SetAt(key.client.db, key.name).Ok? && MembersOf(key.client.db, key.name) != {} ==>
      choice in MembersOf(key.client.db, key.name)
    ensures SetAt(key.client.db, key.name).Err? ==> r == Err(TypeError)
    ensures SetAt(key.client.db, key.name).Ok? && MembersOf(key.client.db, key.name) == {} ==> r == Ok(PNone)
    ensures SetAt(key.client.db, key.name).Ok? && MembersOf(key.client.db, key.name) != {} ==>
      r == Read(Mix, key.codec, PStr(choice)) && choice in MembersOf(key.client.db, key.name)
  {
    var picked := RaiseWhenWrongType(SRandMember(key.client.db, key.name, choice));
    if picked.Err? {
      return Err(picked.error);
    }
    r := ReadWire(Mix, key.codec, picked.value);
  }

  /** `move(destination, member)`: SMOVE of the member's text; `KeyError`
      when it is not a member of this set. */
  method Move(key: Key, destination: MixHelper.KeyOrName, member: PyValue) returns (r: Result<()>)
    modifies key.client
    ensures var dst := MixHelper.NameOf(destination);
      Write(Mix, key.codec, member).Err? ==> r == Err(ValueError) && key.client.db == old(key.client.db)
    ensures var dst := MixHelper.NameOf(destination);
      Write(Mix, key.codec, member).Ok? ==>
      var t := Str(Write(Mix, key.codec, member).value);
      var moved := SMove(old(key.client.db), key.name, dst, t);
      (moved.Err? ==> r == Err(TypeError) && key.client.db == old(key.client.db)) &&
      (moved.Ok? ==> key.client.db == moved.value.after) &&
      (moved.Ok? && !moved.value.reply ==> r == Err(KeyError)) &&
      (moved.Ok? && moved.value.reply ==> r == Ok(())) &&
      (r.Ok? && key.name != dst ==>
        MembersOf(key.client.db, key.name) == MembersOf(old(key.client.db), key.name) - {t} &&
        MembersOf(key.client.db, dst) == MembersOf(old(key.client.db), dst) + {t})
    ensures r.Ok? ==>
      Write(Mix, key.codec, member).Ok? &&
      Str(Write(Mix, key.codec, member).value) in MembersOf(old(key.client.db), key.name)
  {
    var dst := MixHelper.NameOf(destination);
    var text := Write(Mix, key.codec, member);
    if text.Err? {
      WriteFailsWith(Mix, key.codec, member);
      return Err(text.error);
    }
    var moved := key.client.Send(SMove(key.client.db, key.name, dst, Str(text.value)));
    moved := RaiseWhenWrongType(moved);
    if moved.Err? {
      return Err(moved.error);
    }
    if !moved.value {
      return Err(KeyError);
    }
    r := Ok(());
  }

  /** Both operands' members, the left one read first, as `get_members(self)`
      and then `get_members(other)`. */
  function Operands(st: S.Store, key: Key, other: Other): (r: Result<(set<PyValue>, set<PyValue>)>)
    reads if other.SetKey? then {other.key.client} else {}
    ensures Members(st, key.name, key.codec).Err? ==> r == Err(Members(st, key.name, key.codec).error)
    ensures Members(st, key.name, key.codec).Ok? && OtherMembers(other).Err? ==> r == Err(OtherMembers(other).error)
    ensures r.Ok? <==> Members(st, key.name, key.codec).Ok? && OtherMembers(other).Ok?
    ensures r.Ok? ==> r.value == (Members(st, key.name, key.codec).value, OtherMembers(other).value)
  {
    var mine :- Members(st, key.name, key.codec);
    var theirs :- OtherMembers(other);
    Ok((mine, theirs))
  }

  /** `isdisjoint(other)`: no member in common. */
  method IsDisjoint(key: Key, other: Other) returns (r: Result<bool>)
    ensures r.Ok? <==> Operands(key.client.db, key, other).Ok?
    ensures r.Err? ==> r == Err(Operands(key.client.db, key, other).error)
    ensures r.Ok? ==> var (a, b) := Operands(key.client.db, key, other).value;
      (r.value <==> forall x :: x in a ==> x !in b)
  {
    var both := Operands(key.client.db, key, other);
    if both.Err? {
      return Err(both.error);
    }
    r := Ok(both.value.0 !! both.value.1);
  }

  /** `<=`: every member of the key is in `other`. */
  method Le(key: Key, other: Other) returns (r: Result<bool>)
    ensures r.Ok? <==> Operands(key.client.db, key, other).Ok?
    ensures r.Err? ==> r == Err(Operands(key.client.db, key, other).error)
    ensures r.Ok? ==> var (a, b) := Operands(key.client.db, key, other).value;
      (r.value <==> forall x :: x in a ==> x in b)
  {
    var both := Operands(key.client.db, key, other);
    if both.Err? {
      return Err(both.error);
    }
    r := Ok(both.value.0 <= both.value.1);
  }

  /** `<`: a subset, and `other` has a member more. */
  method Lt(key: Key, other: Other) returns (r: Result<bool>)
    ensures r.Ok? <==> Operands(key.client.db, key, other).Ok?
    ensures r.Err? ==> r == Err(Operands(key.client.db, key, other).error)
    ensures r.Ok? ==> var (a, b) := Operands(key.client.db, key, other).value;
      (r.value <==> (forall x :: x in a ==> x in b) && exists y :: y in b && y !in a)
  {
    var both := Operands(key.client.db, key, other);
    if both.Err? {
      return Err(both.error);
    }
    r := Ok(both.value.0 < both.value.1);
    MissingWitness(both.value.0, both.value.1);
  }

  /** `>=`: every member of `other` is in the key. */
  method Ge(key: Key, other: Other) returns (r: Result<bool>)
    ensures r.Ok? <==> Operands(key.client.db, key, other).Ok?
    ensures r.Err? ==> r == Err(Operands(key.client.db, key, other).error)
    ensures r.Ok? ==> var (a, b) := Operands(key.client.db, key, other).value;
      (r.value <==> forall y :: y in b ==> y in a)
  {
    var both := Operands(key.client.db, key, other);
    if both.Err? {
      return Err(both.error);
    }
    r := Ok(both.value.0 >= both.value.1);
  }

  /** `>`: a superset, and the key has a member more. */
  method Gt(key: Key, other: Other) returns (r: Result<bool>)
    ensures r.Ok? <==> Operands(key.client.db, key, other).Ok?
    ensures r.Err? ==> r == Err(Operands(key.client.db, key, other).error)
    ensures r.Ok? ==> var (a, b) := Operands(key.client.db, key, other).value;
      (r.value <==> (forall y :: y in b ==> y in a) && exists x :: x in a && x !in b)
  {
    var both := Operands(key.client.db, key, other);
    if both.Err? {
      return Err(both.error);
    }
    r := Ok(both.value.0 > both.value.1);
    MissingWitness(both.value.1, both.value.0);
  }

  /** A proper subset misses some member of the bigger set, and only then. */
  lemma MissingWitness(a: set<PyValue>, b: set<PyValue>)
    ensures a < b <==> (forall x :: x in a ==> x in b) && exists y :: y in b && y !in a
  {
    if a <= b && a != b {
      assert !(b <= a);
      var y :| y in b && y !in a;
    }
  }

  /** `|` (and `__ror__`): the members of either operand. */
  method Or(key: Key, other: Other) returns (r: Result<set<PyValue>>)
    ensures r.Ok? <==> Operands(key.client.db, key, other).Ok?
    ensures r.Err? ==> r == Err(Operands(key.client.db, key, other).error)
    ensures r.Ok? ==> var (a, b) := Operands(key.client.db, key, other).value;
      forall x :: x in r.value <==> x in a || x in b
  {
    var both := Operands(key.client.db, key, other);
    if both.Err? {
      return Err(both.error);
    }
    r := Ok(both.value.0 + both.value.1);
  }

  /** `&` (and `__rand__`): the members of both operands. */
  method And(key: Key, other: Other) returns (r: Result<set<PyValue>>)
    ensures r.Ok? <==> Operands(key.client.db, key, other).Ok?
    ensures r.Err? ==> r == Err(Operands(key.client.db, key, other).error)
    ensures r.Ok? ==> var (a, b) := Operands(key.client.db, key, other).value;
      forall x :: x in r.value <==> x in a && x in b
  {
    var both := Operands(key.client.db, key, other);
    if both.Err? {
      return Err(both.error);
    }
    r := Ok(both.value.0 * both.value.1);
  }

  /** `-`: the key's members that `other` lacks. */
  method Sub(key: Key, other: Other) returns (r: Result<set<PyValue>>)
    ensures r.Ok? <==> Operands(key.client.db, key, other).Ok?
    ensures r.Err? ==> r == Err(Operands(key.client.db, key, other).error)
    ensures r.Ok? ==> var (a, b) := Operands(key.client.db, key, other).value;
      forall x :: x in r.value <==> x in a && x !in b
  {
    var both := Operands(key.client.db, key, other);
    if both.Err? {
      return Err(both.error);
    }
    r := Ok(both.value.0 - both.value.1);
  }

  /** `other - s`: the operands swapped, and `other` read first. */
  method RSub(key: Key, other: Other) returns (r: Result<set<PyValue>>)
    ensures OtherMembers(other).Err? ==> r == Err(OtherMembers(other).error)
    ensures r.Ok? <==> Operands(key.client.db, key, other).Ok?
    ensures r.Ok? ==> var (a, b) := Operands(key.client.db, key, other).value;
      forall x :: x in r.value <==> x in b && x !in a
  {
    var theirs := OtherMembers(other);
    if theirs.Err? {
      return Err(theirs.error);
    }
    var mine := Iter(key);
    if mine.Err? {
      return Err(mine.error);
    }
    r := Ok(theirs.value - mine.value);
  }

  /** `^` (and `__rxor__`): the members of exactly one operand. */
  method Xor(key: Key, other: Other) returns (r: Result<set<PyValue>>)
    ensures r.Ok? <==> Operands(key.client.db, key, other).Ok?
    ensures r.Err? ==> r == Err(Operands(key.client.db, key, other).error)
    ensures r.Ok? ==> var (a, b) := Operands(key.client.db, key, other).value;
      forall x :: x in r.value <==> (x in a <==> x !in b)
  {
    var both := Operands(key.client.db, key, other);
    if both.Err? {
      return Err(both.error);
    }
    var (a, b) := both.value;
    r := Ok((a - b) + (b - a));
  }

  /** The guard of the in-place operators: a key operand that exists must
      be a set, as its own client reports. */
  predicate Refused(other: Key)
    reads other.client
  {
    other.name in other.client.db.data && S.RepOf(other.client.db, other.name) != SetRep
  }

  /** `|=`: the server's union of the two keys replaces this key's members.
      A Python set has no `exists`, so it is refused with `AttributeError`. */
  method IOr(key: Key, other: Other) returns (r: Result<Key>)
    modifies key.client
    ensures other.PySet? ==> r == Err(AttributeError)
    ensures other.SetKey? && old(Refused(other.key)) ==> r == Err(TypeError)
    ensures other.SetKey? && !old(Refused(other.key)) ==>
      var stored := SUnionStore(old(key.client.db), key.name, [key.name, other.key.name]);
      (stored.Err? ==> r == Err(TypeError)) &&
      (stored.Ok? ==> r == Ok(key) && key.client.db == stored.value.after)
    ensures r.Err? ==> key.client.db == old(key.client.db)
    ensures r.Ok? ==>
      MembersOf(key.client.db, key.name) ==
      MembersOf(old(key.client.db), key.name) + MembersOf(old(key.client.db), other.key.name)
  {
    if other.PySet? {
      return Err(AttributeError);
    }
    if Refused(other.key) {
      return Err(TypeError);
    }
    var st := key.client.db;
    var stored := key.client.Send(SUnionStore(key.client.db, key.name, [key.name, other.key.name]));
    stored := RaiseWhenWrongType(stored);
    if stored.Err? {
      return Err(stored.error);
    }
    UnionStored(st, key.name, other.key.name);
    r := Ok(key);
  }

  /** `&=`: the server's intersection of the two keys replaces this key's members. */
  method IAnd(key: Key, other: Other) returns (r: Result<Key>)
    modifies key.client
    ensures other.PySet? ==> r == Err(AttributeError)
    ensures other.SetKey? && old(Refused(other.key)) ==> r == Err(TypeError)
    ensures other.SetKey? && !old(Refused(other.key)) ==>
      var stored := SInterStore(old(key.client.db), key.name, [key.name, other.key.name]);
      (stored.Err? ==> r == Err(TypeError)) &&
      (stored.Ok? ==> r == Ok(key) && key.client.db == stored.value.after)
    ensures r.Err? ==> key.client.db == old(key.client.db)
    ensures r.Ok? && SetAt(old(key.client.db), other.key.name).Ok? ==>
      MembersOf(key.client.db, key.name) ==
      MembersOf(old(key.client.db), key.name) * MembersOf(old(key.client.db), other.key.name)
  {
    if other.PySet? {
      return Err(AttributeError);
    }
    if Refused(other.key) {
      return Err(TypeError);
    }
    var st := key.client.db;
    var stored := key.client.Send(SInterStore(key.client.db, key.name, [key.name, other.key.name]));
    stored := RaiseWhenWrongType(stored);
    if stored.Err? {
      return Err(stored.error);
    }
    if SetAt(st, other.key.name).Ok? {
      InterStored(st, key.name, other.key.name);
    }
    r := Ok(key);
  }

  /** `-=`: the server's difference of the two keys replaces this key's members. */
  method ISub(key: Key, other: Other) returns (r: Result<Key>)
    modifies key.client
    ensures other.PySet? ==> r == Err(AttributeError)
    ensures other.SetKey? && old(Refused(other.key)) ==> r == Err(TypeError)
    ensures other.SetKey? && !old(Refused(other.key)) ==>
      var stored := SDiffStore(old(key.client.db), key.name, [key.name, other.key.name]);
      (stored.Err? ==> r == Err(TypeError)) &&
      (stored.Ok? ==> r == Ok(key) && key.client.db == stored.value.after)
    ensures r.Err? ==> key.client.db == old(key.client.db)
    ensures r.Ok? ==>
      MembersOf(key.client.db, key.name) ==
      MembersOf(old(key.client.db), key.name) - MembersOf(old(key.client.db), other.key.name)
  {
    if other.PySet? {
      return Err(AttributeError);
    }
    if Refused(other.key) {
      return Err(TypeError);
    }
    var st := key.client.db;
    var stored := key.client.Send(SDiffStore(key.client.db, key.name, [key.name, other.key.name]));
    stored := RaiseWhenWrongType(stored);
    if stored.Err? {
      return Err(stored.error);
    }
    DiffStored(st, key.name, other.key.name);
    r := Ok(key);
  }

  /** A member added and then looked up is there, read back as itself when
      the codec writes it without loss. */
  lemma AddThenContains(st: S.Store, k: string, c: Codec, e: PyValue)
    requires SetAt(st, k).Ok? && Write(Mix, c, e).Ok? && Lossless(c, e)
    ensures var t := Str(Write(Mix, c, e).value); var added := SAdd(st, k, {t});
      added.Ok? && SIsMember(added.value.after, k, t) == Ok(true) &&
      (Members(added.value.after, k, c).Ok? ==> e in Members(added.value.after, k, c).value)
  {
    var t := Str(Write(Mix, c, e).value);
    var after := SAdd(st, k, {t}).value.after;
    RoundTrip(Mix, c, e);
    assert t in MembersOf(after, k);
  }
}
