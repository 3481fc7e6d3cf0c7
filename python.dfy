/**
 * The Python side of the mapper: the native values a caller hands to a key
 * object, the exceptions the mapper raises, and the indexing and slicing rules
 * of Python lists that the collection wrappers imitate.
 */
module Python {

  datatype Option<+T> = None | Some(value: T)

  /** The reasons the Redis server gives for a rejected command; redis-py
      raises every one of them as `ResponseError`. */
  datatype RedisError =
    | WrongType          // WRONGTYPE: the key holds another representation
    | NotAnInteger       // the stored value is not a 64-bit decimal integer
    | Overflow           // increment or decrement would overflow
    | NoSuchKey          // LSET on an absent key
    | IndexOutOfRange    // LSET past either end
    | WrongArity         // a variadic command called with no members
    | InvalidExpireTime  // SETEX with a non-positive time

  /** The exceptions the mapper can surface. `ResponseError` is the driver's
      own exception, which the translation boundary turns into `TypeError`. */
  datatype Error =
    | TypeError
    | ValueError
    | KeyError
    | IndexError
    | OverflowError
    | NotImplementedError
    | AttributeError
    | AssertionError
    | Exception
    | ResponseError(reason: RedisError)

  /** A Python call either returns a value or raises an exception. */
  datatype Result<+T> = Ok(value: T) | Err(error: Error) {
    predicate IsFailure() { Err? }
    function PropagateFailure<U>(): Result<U> requires Err? { Err(error) }
    function Extract(): T requires Ok? { value }
  }

  predicate IsDigit(c: char) { '0' <= c <= '9' }

  predicate AllDigits(s: string) { forall i :: 0 <= i < |s| ==> IsDigit(s[i]) }

  function Unsigned(s: string): string {
    if |s| > 0 && (s[0] == '-' || s[0] == '+') then s[1..] else s
  }

  /** The index of the first `a` or `b` in `s`, or `|s|` when neither occurs. */
  function FirstOf(s: string, a: char, b: char): (k: nat)
    ensures k <= |s|
    ensures k < |s| ==> s[k] == a || s[k] == b
    ensures forall i :: 0 <= i < k ==> s[i] != a && s[i] != b
  {
    if s == [] || s[0] == a || s[0] == b then 0 else 1 + FirstOf(s[1..], a, b)
  }

  /** Digits with at most one decimal point, and at least one digit:
      `12`, `1.5`, `1.` and `.5`, but not `.`. */
  predicate IsMantissa(m: string) {
    var d := FirstOf(m, '.', '.');
    AllDigits(m[..d]) &&
    if d < |m| then AllDigits(m[d + 1..]) && |m| >= 2 else |m| >= 1
  }

  /** `e` or `E`, an optional sign, and at least one digit. */
  predicate IsExponent(e: string) {
    |e| >= 2 && (e[0] == 'e' || e[0] == 'E') && Unsigned(e[1..]) != [] && AllDigits(Unsigned(e[1..]))
  }

  function Lower(c: char): char {
    if 'A' <= c <= 'Z' then (c as int + 32) as char else c
  }

  /** `s` is the lower-case `word` in any mix of cases. */
  predicate SameLetters(s: string, word: string) {
    |s| == |word| && forall i :: 0 <= i < |s| ==> Lower(s[i]) == word[i]
  }

  /** The names of the infinite and not-a-number floats. */
  predicate IsSpecialFloat(s: string) {
    SameLetters(s, "inf") || SameLetters(s, "infinity") || SameLetters(s, "nan")
  }

  /** The text `float()` accepts once white space is stripped: an optional
      sign, then `inf`, `infinity` or `nan` in any case, or a mantissa with an
      optional exponent (`1.5`, `.5`, `1e5`, `-2.5E-3`). */
  predicate IsFloatText(s: string) {
    var body := Unsigned(s);
    IsSpecialFloat(body) ||
    var k := FirstOf(body, 'e', 'E');
    IsMantissa(body[..k]) && (k < |body| ==> IsExponent(body[k..]))
  }

  /** A Python float, given by its literal: float text that is not an
      integer literal, since `int()` is tried first and reads those. Two floats
      are equal here when their literals are. */
  predicate IsFloatLiteral(s: string) {
    IsFloatText(s) && !AllDigits(Unsigned(s))
  }

  type FloatLiteral = s: string | IsFloatLiteral(s) witness "inf"

  /** The native values the codecs deal with. `str` and `unicode` are one
      string type; every other object is `POther`, carrying its type's name
      and what `str()` makes of it. */
  datatype PyValue =
    | PNone
    | PInt(i: int)
    | PFloat(f: FloatLiteral)
    | PStr(s: string)
    | POther(typeName: string, text: string)

  /** The classes `isinstance` is asked about: `numbers.Integral`, `float`,
      `basestring` (with `str` and `unicode`), `NoneType` and any other class. */
  datatype PyType = IntegralType | FloatType | StrType | NoneType | OtherType(name: string)

  predicate IsInstance(v: PyValue, t: PyType) {
    match v
    case PNone => t == NoneType
    case PInt(_) => t == IntegralType
    case PFloat(_) => t == FloatType
    case PStr(_) => t == StrType
    case POther(name, _) => t == OtherType(name)
  }

  /** A subscript `x[i]` or `x[start:stop:step]`. */
  datatype Subscript = At(index: int) | Range(start: Option<int>, stop: Option<int>, step: Option<int>)

  /** A slice step that visits every position: none given, or 1. */
  predicate UnitStep(step: Option<int>) { step.None? || step == Some(1) }

  /** A slice whose step skips or reverses: anything but none or 1. */
  predicate Stepped(sub: Subscript) { sub.Range? && !UnitStep(sub.step) }

  /** `s[i]` on a Python list: a negative index counts from the end. */
  function Index<T>(s: seq<T>, i: int): (r: Result<T>)
    ensures r.Ok? <==> -|s| <= i < |s|
    ensures r.Err? ==> r.error == IndexError
    ensures 0 <= i < |s| ==> r == Ok(s[i])
    ensures -|s| <= i < 0 ==> r == Ok(s[|s| + i])
  {
    if 0 <= i < |s| then Ok(s[i])
    else if -|s| <= i < 0 then Ok(s[|s| + i])
    else Err(IndexError)
  }

  /** Where a slice bound lands in a list of length `n`. */
  function SliceBound(b: Option<int>, n: nat, default: nat): (r: nat)
    requires default <= n
    ensures r <= n
  {
    match b
    case None => default
    case Some(x) =>
      if x < 0 then (if x + n < 0 then 0 else x + n)
      else if x > n then n
      else x
  }

  /** `s[start:stop]` on a Python list. */
  function Slice<T>(s: seq<T>, start: Option<int>, stop: Option<int>): (r: seq<T>)
    ensures |r| <= |s|
    ensures start.None? && stop.None? ==> r == s
    ensures forall x :: x in r ==> x in s
  {
    var a := SliceBound(start, |s|, 0);
    var b := SliceBound(stop, |s|, |s|);
    if a < b then s[a..b] else []
  }

  /** Where a bound of a slice with step `k` lands in a list of length `n`:
      clamped to `0..n` for a positive step and to `-1..n-1` for a negative
      one. */
  function StepBound(b: Option<int>, n: nat, k: int, default: int): int {
    match b
    case None => default
    case Some(x) =>
      if x < 0 then (if x + n < 0 then (if k < 0 then -1 else 0) else x + n)
      else if x >= n then (if k < 0 then n - 1 else n)
      else x
  }

  /** How many positions `lo`, `lo + k`, `lo + 2k`, … lie before `hi`. */
  function StepCount(lo: int, hi: int, k: int): nat
    requires k != 0
  {
    if k > 0 then (if lo < hi then (hi - lo - 1) / k + 1 else 0)
    else (if hi < lo then (lo - hi - 1) / -k + 1 else 0)
  }

  /** The first and last bounds of `s[start:stop:step]`, and how many
      positions it visits. */
  function StepRange(n: nat, start: Option<int>, stop: Option<int>, k: int): (int, int)
    requires k != 0
  {
    (StepBound(start, n, k, if k < 0 then n - 1 else 0), StepBound(stop, n, k, if k < 0 then -1 else n))
  }

  /** The items at `i`, `i + k`, `i + 2k`, …, `count` of them. */
  function Stride<T>(s: seq<T>, i: int, k: int, count: nat): (r: seq<T>)
    ensures |r| <= count
    ensures forall x :: x in r ==> x in s
    decreases count
  {
    if count == 0 || !(0 <= i < |s|) then [] else [s[i]] + Stride(s, i + k, k, count - 1)
  }

  /** The `j`-th item of a stride is the item `j` steps on from where it starts. */
  lemma {:induction false} StrideAt<T>(s: seq<T>, i: int, k: int, count: nat)
    ensures var r := Stride(s, i, k, count);
      forall j :: 0 <= j < |r| ==> 0 <= i + j * k < |s| && r[j] == s[i + j * k]
    decreases count
  {
    if count > 0 && 0 <= i < |s| {
      var r := Stride(s, i, k, count);
      var rest := Stride(s, i + k, k, count - 1);
      StrideAt(s, i + k, k, count - 1);
      forall j | 0 < j < |r|
        ensures 0 <= i + j * k < |s| && r[j] == s[i + j * k]
      {
        assert r[j] == rest[j - 1];
        assert i + k + (j - 1) * k == i + j * k;
      }
    }
  }

  /** Position `j` is one of `lo`, `lo + k`, …, `count` of them. */
  predicate OnStride(j: int, lo: int, k: int, count: nat)
    requires k != 0
  {
    if k > 0 then lo <= j && (j - lo) % k == 0 && (j - lo) / k < count
    else j <= lo && (lo - j) % -k == 0 && (lo - j) / -k < count
  }

  /** The items of `s` at positions off the stride, in order. */
  function KeepUnless<T>(s: seq<T>, lo: int, k: int, count: nat): (r: seq<T>)
    requires k != 0
    ensures |r| <= |s|
    ensures forall x :: x in r ==> x in s
    ensures forall j :: 0 <= j < |s| && !OnStride(j, lo, k, count) ==> s[j] in r
  {
    if s == [] then []
    else
      var last := |s| - 1;
      KeepUnless(s[..last], lo, k, count) + (if OnStride(last, lo, k, count) then [] else [s[last]])
  }

  /** `s[start:stop:step]` on a Python list: a zero step raises `ValueError`. */
  function StepSlice<T>(s: seq<T>, start: Option<int>, stop: Option<int>, step: Option<int>): (r: Result<seq<T>>)
    ensures r.Err? <==> step == Some(0)
    ensures r.Err? ==> r.error == ValueError
    ensures UnitStep(step) ==> r == Ok(Slice(s, start, stop))
    ensures r.Ok? ==> forall x :: x in r.value ==> x in s
  {
    if UnitStep(step) then Ok(Slice(s, start, stop))
    else if step == Some(0) then Err(ValueError)
    else
      var k := step.value;
      var (lo, hi) := StepRange(|s|, start, stop, k);
      Ok(Stride(s, lo, k, StepCount(lo, hi, k)))
  }

  /** `s[key] = x` on a Python list. */
  function SetIndex<T>(s: seq<T>, i: int, x: T): (r: Result<seq<T>>)
    ensures r.Ok? <==> -|s| <= i < |s|
    ensures r.Err? ==> r.error == IndexError
    ensures r.Ok? ==> r.value == s[(if i < 0 then |s| + i else i) := x]
    ensures r.Ok? ==> forall y :: y in r.value ==> y in s || y == x
  {
    if 0 <= i < |s| then Ok(s[i := x])
    else if -|s| <= i < 0 then Ok(s[|s| + i := x])
    else Err(IndexError)
  }

  /** `del s[key]` on a Python list, for an index or a slice. */
  function DelSubscript<T>(s: seq<T>, key: Subscript): (r: Result<seq<T>>)
    ensures key.At? ==> (r.Ok? <==> -|s| <= key.index < |s|)
    ensures key.At? && r.Ok? ==> |r.value| == |s| - 1
    ensures key.Range? ==> (r.Err? <==> key.step == Some(0))
    ensures r.Err? ==> r.error == if key.At? then IndexError else ValueError
    ensures key.Range? && key.start.None? && key.stop.None? && UnitStep(key.step) ==> r == Ok([])
    ensures key.Range? && UnitStep(key.step) ==> |r.value| + |Slice(s, key.start, key.stop)| == |s|
    ensures r.Ok? ==> forall x :: x in r.value ==> x in s
  {
    match key
    case At(i) =>
      if 0 <= i < |s| then Ok(s[..i] + s[i + 1..])
      else if -|s| <= i < 0 then Ok(s[..|s| + i] + s[|s| + i + 1..])
      else Err(IndexError)
    case Range(start, stop, step) =>
      if UnitStep(step) then
        var a := SliceBound(start, |s|, 0);
        var b := SliceBound(stop, |s|, |s|);
        if a < b then Ok(s[..a] + s[b..]) else Ok(s)
      else if step == Some(0) then Err(ValueError)
      else
        var k := step.value;
        var (lo, hi) := StepRange(|s|, start, stop, k);
        Ok(KeepUnless(s, lo, k, StepCount(lo, hi, k)))
  }

  /** `s[key]` for an index or a slice; a slice fails only on a zero step. */
  function Subscripted<T>(s: seq<T>, key: Subscript): (r: Result<seq<T>>)
    ensures key.Range? ==> r == StepSlice(s, key.start, key.stop, key.step)
    ensures key.At? ==> (r.Ok? <==> -|s| <= key.index < |s|) && (r.Ok? ==> |r.value| == 1)
  {
    match key
    case At(i) => var x :- Index(s, i); Ok([x])
    case Range(start, stop, step) => StepSlice(s, start, stop, step)
  }

  /** `s.count(x)`: the number of positions holding `x`. */
  function Count<T(==)>(s: seq<T>, x: T): (r: nat)
    ensures r <= |s|
    ensures r == multiset(s)[x]
  {
    if s == [] then 0
    else
      assert s == [s[0]] + s[1..];
      (if s[0] == x then 1 else 0) + Count(s[1..], x)
  }

  function Reverse<T>(s: seq<T>): (r: seq<T>)
    ensures |r| == |s|
    ensures forall i :: 0 <= i < |s| ==> r[i] == s[|s| - 1 - i]
  {
    if s == [] then [] else Reverse(s[1..]) + [s[0]]
  }

  /** `[x for x in s if x != v]`: what removing every `v` leaves, in order. */
  function Without<T(==)>(s: seq<T>, v: T): (r: seq<T>)
    ensures |r| + Count(s, v) == |s|
    ensures v !in r
    ensures multiset(r) == multiset(s)[v := 0]
  {
    if s == [] then []
    else
      assert s == [s[0]] + s[1..];
      (if s[0] == v then [] else [s[0]]) + Without(s[1..], v)
  }
}
