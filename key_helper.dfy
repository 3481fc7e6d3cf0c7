/**
 * The helpers of the second generation of keys: the text of a key's repr and
 * the translation of a wrong-type reply into `TypeError`.
 */
module KeyHelper {
  import opened Python
  import opened Wire

  predicate IsLetter(c: char) { 'a' <= c <= 'z' || 'A' <= c <= 'Z' }

  function Upper(c: char): (u: char)
    ensures IsLetter(c) ==> 'A' <= u <= 'Z'
    ensures !('a' <= c <= 'z') ==> u == c
  {
    if 'a' <= c <= 'z' then (c as int - 32) as char else c
  }

  function Lower(c: char): (l: char)
    ensures IsLetter(c) ==> 'a' <= l <= 'z'
    ensures !('A' <= c <= 'Z') ==> l == c
  {
    if 'A' <= c <= 'Z' then (c as int + 32) as char else c
  }

  /** Python's `str.title()` on ASCII: a letter that starts a word is upper
      case, every other letter lower case. `afterLetter` says whether the text
      continues a word. */
  function TitleFrom(s: string, afterLetter: bool): (t: string)
    ensures |t| == |s|
  {
    if s == [] then []
    else
      var c := if !IsLetter(s[0]) then s[0] else if afterLetter then Lower(s[0]) else Upper(s[0]);
      [c] + TitleFrom(s[1..], IsLetter(s[0]))
  }

  /** Each letter of the title is upper case exactly when it starts a word. */
  lemma {:induction false} TitleCases(s: string, afterLetter: bool, i: nat)
    requires i < |s| && IsLetter(s[i])
    ensures var starts := if i == 0 then !afterLetter else !IsLetter(s[i - 1]);
      var c := TitleFrom(s, afterLetter)[i];
      (starts ==> 'A' <= c <= 'Z') && (!starts ==> 'a' <= c <= 'z')
  {
    if i > 0 {
      TitleCases(s[1..], IsLetter(s[0]), i - 1);
      assert s[1..][i - 1] == s[i];
      if i > 1 {
        assert s[1..][i - 2] == s[i - 1];
      }
    }
  }

  function Title(s: string): string { TitleFrom(s, false) }

  /** Inside a word every letter is lowered. */
  lemma {:induction false} TitleOfWordTail(s: string)
    requires forall i :: 0 <= i < |s| ==> IsLetter(s[i])
    ensures TitleFrom(s, true) == seq(|s|, i requires 0 <= i < |s| => Lower(s[i]))
  {
    if s != [] {
      TitleOfWordTail(s[1..]);
    }
  }

  /** A single word keeps its first letter upper case and lowers the rest. */
  lemma TitleOfWord(s: string)
    requires |s| >= 1 && forall i :: 0 <= i < |s| ==> IsLetter(s[i])
    ensures Title(s) == [Upper(s[0])] + seq(|s| - 1, i requires 0 <= i < |s| - 1 => Lower(s[i + 1]))
  {
    TitleOfWordTail(s[1..]);
  }

  /** `format_key`: the repr of a key of class `className` named `name`
      holding `value`. It shows, in order, the class name in title case, the
      name in quotes and the value's `str()`, so each can be read off it. */
  function FormatKey(className: string, name: string, value: PyValue): (r: string)
    ensures |r| == |className| + |name| + |Str(value)| + 9
    ensures r[..|className|] == Title(className)
    ensures r[|className|..|className| + 6] == " Key '"
    ensures r[|className| + 6..|className| + 6 + |name|] == name
    ensures r[|className| + 6 + |name|..|className| + 9 + |name|] == "': "
    ensures r[|className| + 9 + |name|..] == Str(value)
  {
    var t := Title(className);
    var r := t + " Key '" + name + "': " + Str(value);
    assert r == t + (" Key '" + (name + ("': " + Str(value))));
    r
  }

  /** The repr of a key whose class name is one word shows that word with its
      first letter upper case and the rest lower case: `Basekey` for a
      `BaseKey`, `Key` for a `Key`. */
  lemma FormatOneWordKey(className: string, name: string, value: PyValue)
    requires |className| >= 1 && forall i :: 0 <= i < |className| ==> IsLetter(className[i])
    ensures var r := FormatKey(className, name, value);
      r[0] == Upper(className[0]) &&
      forall i :: 1 <= i < |className| ==> r[i] == Lower(className[i])
  {
    var r := FormatKey(className, name, value);
    var t := Title(className);
    TitleOfWordAt(className);
    assert r[..|className|] == t;
    forall i | 0 <= i < |className|
      ensures r[i] == t[i]
    {
      assert r[i] == r[..|className|][i];
    }
  }

  /** Position by position: a single word's title is its first letter upper
      case and every other letter lower case. */
  lemma TitleOfWordAt(s: string)
    requires |s| >= 1 && forall i :: 0 <= i < |s| ==> IsLetter(s[i])
    ensures Title(s)[0] == Upper(s[0])
    ensures forall i :: 1 <= i < |s| ==> Title(s)[i] == Lower(s[i])
  {
    var tail := seq(|s| - 1, i requires 0 <= i < |s| - 1 => Lower(s[i + 1]));
    TitleOfWord(s);
    assert Title(s) == [Upper(s[0])] + tail;
    forall i | 1 <= i < |s|
      ensures Title(s)[i] == Lower(s[i])
    {
      assert Title(s)[i] == tail[i - 1];
    }
  }

  /** `raise_when_wrong_type`: a wrong-type reply of the server becomes
      `TypeError`; every other outcome passes through. */
  function RaiseWhenWrongType<T>(r: Result<T>): (t: Result<T>)
    ensures r.Ok? ==> t == r
    ensures r.Err? && r.error.ResponseError? ==> t == Err(TypeError)
    ensures r.Err? && !r.error.ResponseError? ==> t == r
    ensures t.Err? ==> !t.error.ResponseError?
  {
    if r.Err? && r.error.ResponseError? then Err(TypeError) else r
  }

  /** The wrapper changes only the kind of a server error, never whether the
      call failed. */
  lemma RaiseWhenWrongTypeKeepsOutcome<T>(r: Result<T>)
    ensures RaiseWhenWrongType(r).Ok? <==> r.Ok?
    ensures RaiseWhenWrongType(RaiseWhenWrongType(r)) == RaiseWhenWrongType(r)
  {
  }
}
