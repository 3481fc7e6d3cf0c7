# ooredis in Dafny

ooredis maps Redis keys to Python objects. A key object is a name, a
connection and a codec. Its methods are Python's container protocol (`len`,
`in`, `[]`, `del`, `|`, `+=`, …), and each one becomes a few Redis commands.
The repository holds two generations of these classes:

- `ooredis/mix/*` converts values with `to_redis` / `to_python` (`ooredis/type_case.py`), raises `ValueError` for a value outside the codec, and catches the driver's `ResponseError` inline.
- `ooredis/key/*` converts values with `encode` / `decode` (the `ooredis/type_case/` package), raises `TypeError` for everything, and translates errors with a decorator.

This project models both generations, each file against its own text.

## How the model is built

- **The server** is a value, `Store.Store`:
  - every key name maps to a string, a list, a set, a sorted set or a hash;
  - a key may carry an expiry deadline, and the clock `now` is fixed.
  - Each Redis command the keys use is a function (`Store`, `ListCommands`, `SetCommands`, `ZSetCommands`, `HashCommands`). It returns either the reply together with the new store, or the server's error with the store unchanged.
  - `Store.Valid` says every stored collection is non-empty, every sorted set is ranked, and every deadline lies in the future. Every write command preserves it.
- **The connection** is a class, `RedisClient.Client`, whose field `db` is the server's state.
  - `Send` answers with a command's reply and takes on the state the command leaves.
  - Every key operation is a method with `modifies key.client`. Its `ensures` state the outcome and the whole new state of the key, and that every other key is unchanged (`Store.SameElsewhere`).
- **A key** is a datatype holding its name, its client and its codec. Nothing in ooredis updates those three after construction.
- **Python values and exceptions** are datatypes (`Python.PyValue`, `Python.Error`). A method's result is `Result<T>`. Python's indexing, slicing and `del` rules for lists (`Python.Index`, `Python.Slice`, `Python.DelSubscript`, …) are the reference the collection wrappers are proved against.
- **Both codec generations** are modelled per codec (`TypeCase`, `GenericTypeCase`, `IntTypeCase`, `StringTypeCase`). `Codec.Write` / `Codec.Read` select the codec and the generation for a key.
- **What reaches the server** is the `str()` of a value (`Wire`):
  - integers are rendered in decimal by `Wire.IntToString` and parsed by `Wire.PyInt`;
  - Redis's own integer reading is `Wire.RedisInt`, the 64-bit range.
  - `Codec.Lossless` names the values that come back unchanged. The generic codec turns the string `"12"` into the integer 12, so that string is not lossless.
- **Sorted sets** are listings of `(member, score)` entries, ordered by score and then by member (`ZOrder`). A member's rank is its position in the listing, and `ZOrder.RankCountsPredecessors` proves this equals the number of entries ordered before it.

## Model

| member | source | states |
|---|---|---|
| TypeCaseHelper.IsAnyInstance | ooredis/type_case/helper.py:3-7 | true exactly when the value is an instance of at least one listed type |
| TypeCaseHelper.NoTypesNeverMatch | ooredis/type_case/helper.py:3-7 | with no types listed nothing matches (`any` of nothing is false) |
| TypeCaseHelper.StrMatchesWhenListed | ooredis/type_case/helper.py:3-7 | a string matches whenever the string type is among the types, at any position |
| TypeCaseHelper.StrRejectedWhenNotListed | ooredis/type_case/helper.py:3-7 | a string never matches a list without the string type |
| GenericTypeCase.Encode | ooredis/type_case/generic_type_case.py:13-21 | succeeds exactly on strings, integers and floats, returning the value unchanged; everything else is `TypeError` |
| GenericTypeCase.Decode | ooredis/type_case/generic_type_case.py:24-43 | `None` stays `None`; anything but a string is `TypeError`; a string comes back as an integer, a float or itself |
| GenericTypeCase.DecodesIntegers | ooredis/type_case/generic_type_case.py:36-37 | the decimal text of any integer decodes to that integer |
| GenericTypeCase.DecodesOtherText | ooredis/type_case/generic_type_case.py:36-43 | a string that neither `int()` nor `float()` accepts (`float()` taking signs, exponents, `inf`, `infinity` and `nan` in any case) decodes to itself |
| GenericTypeCase.RoundTrip | ooredis/type_case/generic_type_case.py:13-43 | decoding the `str()` of an encoded value gives the value back, floats written with exponents or as `inf`/`nan` included, for every value except a string `int()` or `float()` reads |
| GenericTypeCase.NumericTextComesBackAsNumber | ooredis/type_case/generic_type_case.py:36-39 | the exception to the round trip: every string that `int()` or `float()` reads comes back as a number, never as itself |
| IntTypeCase.Encode | ooredis/type_case/int_type_case.py:12-19 | succeeds exactly on integers, unchanged; anything else is `TypeError` |
| IntTypeCase.Decode | ooredis/type_case/int_type_case.py:22-36 | `None` stays `None`; a string decodes exactly when `long()` accepts it (what `int()` reads, or the same with a trailing `L`), to that integer; a float decodes exactly when it is finite and not `nan`; every failure is `TypeError` |
| IntTypeCase.ReadsLongLiterals | ooredis/type_case/int_type_case.py:33-34 | the Python 2 `long` literal of any integer, such as `12L`, decodes to that integer |
| IntTypeCase.RoundTrip | ooredis/type_case/int_type_case.py:12-36 | every integer is encoded unchanged and its `str()` decodes back to it |
| StringTypeCase.Encode | ooredis/type_case/string_type_case.py:10-18 | succeeds exactly on strings, unchanged; anything else is `TypeError` |
| StringTypeCase.Decode | ooredis/type_case/string_type_case.py:21-31 | `None` stays `None`; every other value becomes a string, and a string stays itself |
| StringTypeCase.RoundTrip | ooredis/type_case/string_type_case.py:10-31 | every string survives encode then decode, also through its `str()` |
| TypeCase.AcceptType | ooredis/type_case.py:18-23 | the returned test accepts a value exactly when it is an instance of one of the types |
| TypeCase.Interpret | ooredis/type_case.py:65-77 | a string becomes `int(s)` when that succeeds, otherwise `float(s)` (signs, exponents, `inf`/`infinity`/`nan` in any case), otherwise the string itself; the string is kept exactly when neither reads it |
| TypeCase.GenericToRedis | ooredis/type_case.py:33-41 | accepts exactly strings, integers and floats, unchanged; otherwise `ValueError` |
| TypeCase.GenericToPython | ooredis/type_case.py:43-77 | `None` stays `None`; a non-string fails the assertion; a string is read as a number when it looks like one |
| TypeCase.IntToRedis | ooredis/type_case.py:84-90 | accepts exactly integers, unchanged; otherwise `ValueError` |
| TypeCase.IntToPython | ooredis/type_case.py:92-100 | `None` stays `None`; a string converts exactly when `int()` accepts it, to the integer `int()` reads, and fails with `ValueError` otherwise |
| TypeCase.StringToRedis | ooredis/type_case.py:130-138 | accepts exactly strings, unchanged; otherwise `ValueError` |
| TypeCase.StringToPython | ooredis/type_case.py:140-154 | `None` stays `None`; `str()` of anything else, a string staying itself |
| TypeCase.GenericRoundTrip | ooredis/type_case.py:33-77 | `to_python(str(to_redis(v))) == v` for every accepted value, every float literal included, except a string `int()` or `float()` reads |
| TypeCase.GenericReadsIntegers | ooredis/type_case.py:65-66 | the decimal text of any integer reads back as that integer |
| TypeCase.IntRoundTripOld | ooredis/type_case.py:84-100 | the `str()` of any integer reads back as that integer |
| TypeCase.StringRoundTripOld | ooredis/type_case.py:130-154 | every string survives `to_redis` then `to_python` |
| Const.FromTag | ooredis/const.py:3-11 | inverts the type-name table: the representation found has that tag, and every representation with the tag is the one found |
| Const.RedisTypeInjective | ooredis/const.py:3-11 | no two representations share a type name |
| Codec.ReadKeepsNone | ooredis/type_case.py:43-45 | every codec of both interfaces reads the server's "no value" as `None` |
| Codec.RoundTrip | ooredis/type_case/generic_type_case.py:13-43 | for every codec and both interfaces, writing a value, sending its `str()` and reading the answer gives the value back, unless the generic codec meets a numeric-looking string |
| Codec.ReadInteger | ooredis/type_case/int_type_case.py:22-36 | the integer codec reads every text `int()` accepts as that integer |
| Codec.ReadDecimal | ooredis/type_case.py:65-100 | every codec but the string one reads the decimal text of an integer as that integer |
| Codec.ReadTextFailsWith | ooredis/type_case/int_type_case.py:22-36 | only the integer codec can fail on a text, and it fails with its own interface's exception |
| Codec.ReadAll | ooredis/key/deque.py:275-294 | the items of a listing read one by one, in order, or the codec's exception when one cannot be read |
| Codec.ReadMembers | ooredis/key/set.py:481-499 | the members of a set read by the codec: every member's reading is in the result and nothing else is |
| Codec.WriteMembers | ooredis/key/set.py:313-316 | the texts of a set of values written by the codec: every value's text and nothing else; non-empty for a non-empty set |
| Codec.ReadMembersWritable | ooredis/key/set.py:313-316 | every value read from a set can be written again, losslessly |
| Codec.MembersRewriteReadBack | ooredis/key/set.py:313-316 | writing lossless values and reading the texts back gives the same set |
| Codec.SameMembers | ooredis/key/set.py:313-316 | sets with the same members are equal |
| Codec.ReadMembersUnion | ooredis/key/set.py:313-316 | reading the union of two sets of texts is the union of their readings |
| Codec.UnionWritten | ooredis/key/set.py:313-316 | adding the texts of the union of a set's readings and some lossless values reads back as that union |
| Codec.RemoveWritten | ooredis/key/set.py:365-368 | removing the texts of some of a canonical set's readings reads back as the difference |
| Codec.StringIsCanonical | ooredis/type_case/string_type_case.py:10-31 | with the string codec every text is the written form of its own reading |
| Codec.StringMembersReadAsThemselves | ooredis/type_case/string_type_case.py:21-31 | with the string codec a set of texts reads as those texts |
| Codec.WriteFailsWith | ooredis/type_case.py:33-41 | a codec refusing a value raises its interface's exception: `ValueError` for `to_redis`, `TypeError` for `encode` |
| Codec.WritesWhatItReads | ooredis/type_case/generic_type_case.py:24-43 | whatever a codec reads from a text is not `None` and can be written again, losslessly |
| Codec.WriteAll | ooredis/key/deque.py:61-78 | the texts of values written one by one, in order, or the codec's exception |
| Codec.ReadAllWritable | ooredis/key/deque.py:315-319 | every value read from a listing can be written again, losslessly |
| Codec.StringRewritesTexts | ooredis/type_case/string_type_case.py:10-31 | with the string codec, reading texts and writing them again gives the same texts |
| Codec.RewriteReadsBack | ooredis/key/deque.py:315-319 | writing lossless values and reading them back gives the same values in order |
| KeyDeque.Snapshot | ooredis/key/deque.py:275-294 | the list's items decoded in order; a key of another type or an undecodable item is `TypeError` |
| KeyDeque.Iter | ooredis/key/deque.py:275-294 | the items, decoded, in list order |
| KeyDeque.Len | ooredis/key/deque.py:257-272 | the number of items; `TypeError` exactly when the key holds another type |
| KeyDeque.Append | ooredis/key/deque.py:20-37 | as written, without the exception wrapper: the encoded item goes on the right end; a key of another type lets the server's error through; errors leave the server unchanged |
| KeyDeque.AppendCorrected | ooredis/key/deque.py:20-37 | `append` with the wrapper its siblings (`appendleft`, deque.py:40-58) carry: every failure is `TypeError` and the item goes on the right end; every other key is untouched |
| KeyDeque.AppendLeft | ooredis/key/deque.py:40-58 | the encoded item goes on the left end; every failure is `TypeError` and leaves the server unchanged |
| KeyDeque.Extend | ooredis/key/deque.py:61-78 | as written, without the wrapper: the encoded items go on the right end in order; an empty iterable lets RPUSH's arity error through, a key of another type the server's type error |
| KeyDeque.ExtendCorrected | ooredis/key/deque.py:61-78 | `extend` with the wrapper its sibling (`extendleft`, deque.py:81-104) carries: every failure, the empty iterable included, is `TypeError`; the encoded items go on the right end in order; every other key is untouched |
| KeyDeque.ExtendLeft | ooredis/key/deque.py:81-104 | the encoded items go on the left end one by one, so they end up reversed; every failure is `TypeError` |
| KeyDeque.Clear | ooredis/key/deque.py:107-120 | the key is gone and the list reads as empty; other keys untouched |
| KeyDeque.Count | ooredis/key/deque.py:123-140 | the number of decoded items equal to the value |
| KeyDeque.Pop | ooredis/key/deque.py:143-168 | an empty list is `IndexError`; otherwise the last item is removed and returned decoded |
| KeyDeque.PopLeft | ooredis/key/deque.py:198-223 | an empty list is `IndexError`; otherwise the first item is removed and returned decoded |
| KeyDeque.BlockPop | ooredis/key/deque.py:171-195 | on an empty list `None`, the source's answer once a positive timeout runs out (timeout 0 blocks: see Left out); otherwise the last item is removed and returned decoded, every other key untouched |
| KeyDeque.BlockPopLeft | ooredis/key/deque.py:226-250 | as `BlockPop`, at the left end, every other key untouched |
| KeyDeque.GetAt | ooredis/key/deque.py:341-358 | Python's `list(d)[i]`, `IndexError` out of range included |
| KeyDeque.GetSlice | ooredis/key/deque.py:341-358 | Python's `list(d)[a:b:c]`, any step included; a zero step is `ValueError` |
| KeyDeque.RewrittenReadsBack | ooredis/key/deque.py:315-319 | values decoded from the list, plus one lossless new value, encode again and decode back to themselves |
| KeyDeque.Replace | ooredis/key/deque.py:317-319 | delete then extend: the list becomes the encoded values, absent when there are none; nothing encodable leaves the key deleted |
| KeyDeque.DelItem | ooredis/key/deque.py:297-319 | Python's `del` on the decoded items, stepped slices included, then the list rewritten: it reads back as exactly what Python leaves; an index out of range is `IndexError` and a zero step `ValueError`, with the list unchanged |
| KeyDeque.UpdatedNotEmpty | ooredis/key/deque.py:380-383 | an item assignment that succeeds leaves a non-empty list holding the item |
| KeyDeque.UpdatedWritable | ooredis/key/deque.py:380-383 | the updated items can all be encoded exactly when the new item can |
| KeyDeque.SetItem | ooredis/key/deque.py:361-383 | as written: an index out of range is `IndexError` with the list unchanged; an item the codec refuses is `TypeError` after the key has been deleted; otherwise the list reads back as Python's assignment |
| KeyDeque.SetItemCorrected | ooredis/key/deque.py:361-383 | encoding first: every failure leaves the server unchanged, and success reads back as Python's assignment with every other key untouched |
| KeyDeque.StringDelItem | ooredis/key/deque.py:297-319 | with the string codec, deleting among the decoded items and writing them back gives the same texts as deleting among the stored ones |
| KeyDeque.DelSubscriptCommutes | ooredis/key/deque.py:315-316 | deleting the same subscript, stepped or not, from the texts and from their values keeps them in step |
| MixDeque.Texts | ooredis/mix/deque.py:34-53 | the texts redis-py sends for the items, one per item, in order |
| MixDeque.Listed | ooredis/mix/deque.py:111-128 | the stored texts as Python strings, one per text, in order |
| MixDeque.Len | ooredis/mix/deque.py:15-32 | the number of items, 0 for an absent key; `TypeError` exactly when the key holds another type |
| MixDeque.Append | ooredis/mix/deque.py:34-53 | the items' texts go on the right end in order; no items, or a key of another type, is `TypeError` with the server unchanged |
| MixDeque.AppendLeft | ooredis/mix/deque.py:55-74 | the items' texts go on the left end one by one, so they end up reversed; the same errors |
| MixDeque.Iter | ooredis/mix/deque.py:76-94 | the stored texts in order |
| MixDeque.Clear | ooredis/mix/deque.py:96-109 | the key is gone and the list reads as empty |
| MixDeque.Count | ooredis/mix/deque.py:111-128 | the number of stored texts equal to a string value; 0 for a value that is not a string |
| MixDeque.CountListed | ooredis/mix/deque.py:111-128 | counting a value among the listed strings is counting its text among the stored texts, and 0 for a non-string |
| MixDeque.Pop | ooredis/mix/deque.py:130-156 | an empty list is `IndexError`; otherwise the last text is removed and returned |
| MixDeque.PopLeft | ooredis/mix/deque.py:158-184 | an empty list is `IndexError`; otherwise the first text is removed and returned |
| MixDeque.GetAt | ooredis/mix/deque.py:189-191 | Python's indexing of the stored texts |
| MixDeque.GetSlice | ooredis/mix/deque.py:189-191 | Python's slicing of the stored texts, any step included; a zero step is `ValueError` |
| MixDeque.DelItem | ooredis/mix/deque.py:186-187 | always raises `Exception` |
| MixDeque.SetItem | ooredis/mix/deque.py:193-194 | always raises `Exception` |
| MixDeque.AppendThenPop | ooredis/mix/deque.py:34-53 | `append(x)` then `pop()` returns `x`'s text and leaves the list as it was |
| MixDeque.AppendLeftThenPopLeft | ooredis/mix/deque.py:55-74 | `appendleft(x)` then `popleft()` returns `x`'s text and leaves the list as it was |
| MixDict.SetItem | ooredis/mix/dict.py:24-46 | a value the codec refuses is `ValueError`; a key of another type is `TypeError`; otherwise the field holds the value's text and nothing else changes |
| MixDict.GetItem | ooredis/mix/dict.py:48-78 | a key of another type is `TypeError`; an absent field is `KeyError`; otherwise the field's text read by the codec |
| MixDict.DelItem | ooredis/mix/dict.py:80-99 | the field is gone; an absent field is no error; a key of another type is `TypeError` |
| MixDict.Iter | ooredis/mix/dict.py:101-117 | the field names |
| MixDict.Len | ooredis/mix/dict.py:119-134 | the number of fields, 0 for an absent key |
| MixDict.Incr | ooredis/mix/dict.py:136-158 | a key of another type is `TypeError`; any HINCRBY failure is `KeyError` with nothing changed; otherwise the field held an integer that the increment took to the reply, or was absent and the reply is the increment, and the field now holds the reply |
| MixDict.Decr | ooredis/mix/dict.py:160-177 | as `Incr` with `0 - decrement` |
| MixDict.AssignThenRead | ooredis/mix/dict.py:24-78 | `d[f] = v` then `d[f]` gives `v` back for every value the codec keeps |
| MixDict.IncrThenDecr | ooredis/mix/dict.py:136-177 | `incr(f, n)` then `decr(f, n)` leaves the field's integer as it was |
| KeyDict.Contains | ooredis/key/dict.py:26-42 | true exactly when the hash has the field; a key of another type is `TypeError` |
| KeyDict.SetItem | ooredis/key/dict.py:46-65 | every failure is `TypeError` with nothing changed; otherwise the field holds the encoded value, the rest of the hash and its expiry kept |
| KeyDict.GetItem | ooredis/key/dict.py:69-93 | a key of another type is `TypeError`; an absent field is `KeyError`; otherwise the field's text decoded |
| KeyDict.DelItem | ooredis/key/dict.py:97-121 | the field is gone; an absent field is `KeyError`; a key of another type is `TypeError` |
| KeyDict.Iter | ooredis/key/dict.py:122-142 | the field names |
| KeyDict.Len | ooredis/key/dict.py:146-163 | the number of fields, 0 for an absent key |
| KeyDict.AssignThenRead | ooredis/key/dict.py:46-93 | `d[f] = v` then `d[f]` gives `v` back for every value the codec keeps |
| KeyDict.DeleteTwice | ooredis/key/dict.py:97-121 | a second `del d[f]` finds nothing and is `KeyError` |
| BaseKey.New | ooredis/key/base_key.py:16-37 | a key holds its name, its client and its codec |
| BaseKey.EqualIffSameName | ooredis/key/base_key.py:40-56 | two keys are equal exactly when their names are, whatever their clients and codecs |
| BaseKey.DefaultCodecIsGeneric | ooredis/key/base_key.py:16 | the default codec is the generic one |
| MixKey.New | ooredis/mix/key.py:14-24 | a key holds its name, its client and its codec |
| MixKey.EqualIffSameName | ooredis/mix/key.py:26-39 | two keys are equal exactly when their names are |
| MixKey.DefaultCodecIsGeneric | ooredis/mix/key.py:14 | the default codec is the generic one |
| MixKey.Represent | ooredis/mix/key.py:41-58 | TYPE's tag, `"none"` exactly for an absent key, naming the representation the key holds |
| MixKey.Ttl | ooredis/mix/key.py:60-73 | `None` exactly for a key without an expiry; otherwise the positive number of seconds left |
| MixKey.Exists | ooredis/mix/key.py:75-86 | true exactly when the key is present |
| MixKey.Delete | ooredis/mix/key.py:88-102 | the key is gone, with its expiry; an absent key leaves the server unchanged; other keys untouched |
| MixKey.Expire | ooredis/mix/key.py:104-122 | an absent key is `TypeError` with nothing changed; otherwise EXPIRE, a positive time giving exactly that time to live |
| MixKey.ExpireAt | ooredis/mix/key.py:124-142 | an absent key is `TypeError`; otherwise EXPIREAT, a future instant giving the seconds until it as time to live |
| MixKey.Persist | ooredis/mix/key.py:144-167 | an absent key is `TypeError`; a key without an expiry is left unchanged; otherwise the value stays and the expiry is removed |
| CommonKeyPropertyMixin.Represent | ooredis/key/common_key_property_mixin.py:13-36 | TYPE's tag, `"none"` exactly for an absent key, naming the representation the key holds |
| CommonKeyPropertyMixin.Ttl | ooredis/key/common_key_property_mixin.py:39-57 | `None` exactly for a key without an expiry; otherwise the positive number of seconds left |
| CommonKeyPropertyMixin.Exists | ooredis/key/common_key_property_mixin.py:60-77 | true exactly when the key is present |
| CommonKeyPropertyMixin.Delete | ooredis/key/common_key_property_mixin.py:80-96 | the key is gone, with its expiry; other keys untouched |
| CommonKeyPropertyMixin.Expire | ooredis/key/common_key_property_mixin.py:99-120 | an absent key is `TypeError` with nothing changed; otherwise EXPIRE, a positive time giving exactly that time to live |
| CommonKeyPropertyMixin.ExpireAt | ooredis/key/common_key_property_mixin.py:123-144 | an absent key is `TypeError`; otherwise EXPIREAT, a future instant giving the seconds until it as time to live |
| CommonKeyPropertyMixin.Persist | ooredis/key/common_key_property_mixin.py:147-168 | an absent key is `TypeError`; otherwise the value stays and the expiry is removed |
| KeyHelper.Upper | ooredis/key/helper.py:16 | a letter becomes upper case and every other character but a lower-case letter stays |
| KeyHelper.Lower | ooredis/key/helper.py:16 | a letter becomes lower case and every other character but an upper-case letter stays |
| KeyHelper.TitleFrom | ooredis/key/helper.py:16 | title-casing keeps the length |
| KeyHelper.TitleCases | ooredis/key/helper.py:16 | `str.title()`: a letter that starts a run of letters becomes upper case, every other letter lower case |
| KeyHelper.TitleOfWordTail | ooredis/key/helper.py:16 | inside a word every letter becomes lower case |
| KeyHelper.TitleOfWord | ooredis/key/helper.py:16 | a word becomes its first letter in upper case and the rest in lower case |
| KeyHelper.FormatKey | ooredis/key/helper.py:12-17 | the text is the title-cased class name, ` Key '`, the name, `': ` and the `str()` of the value, in that order and nothing else |
| KeyHelper.FormatOneWordKey | ooredis/key/helper.py:12-17 | for a one-word class name, the text starts with the name's first letter in upper case and the rest of its letters in lower case |
| KeyHelper.RaiseWhenWrongType | ooredis/key/helper.py:19-29 | a result passes unchanged, except that a server error becomes `TypeError`; nothing it returns is a server error |
| KeyHelper.RaiseWhenWrongTypeKeepsOutcome | ooredis/key/helper.py:19-29 | the wrapper never turns a failure into a success or back, and wrapping twice is wrapping once |
| MixHelper.NameOf | ooredis/mix/helper.py:11-13 | a key gives its name; a name is kept |
| MixHelper.NamesOf | ooredis/mix/helper.py:15-17 | the names of a sequence of keys or names, one per element |
| MixHelper.FormatKey | ooredis/mix/helper.py:19-22 | the same template: the title-cased class name first, then the name, and the `str()` of the value last |
| KeySet.Members | ooredis/key/set.py:481-499 | the members of a set key decoded by the codec; `{}` for an absent key; every failure is `TypeError` |
| KeySet.OtherMembers | ooredis/key/set.py:341 | a Python set operand is taken as it is; a set key operand is its members decoded by its own codec |
| KeySet.Len | ooredis/key/set.py:461-478 | the number of stored members; `TypeError` exactly when the key holds another type |
| KeySet.Iter | ooredis/key/set.py:481-499 | the members, decoded |
| KeySet.Contains | ooredis/key/set.py:503-520 | `TypeError` exactly when the value cannot be encoded or the key holds another type; otherwise true exactly when the encoded value is a member |
| KeySet.Add | ooredis/key/set.py:30-50 | the members afterwards are the old ones plus the encoded value; errors are `TypeError` and leave the server unchanged; other keys untouched |
| KeySet.Remove | ooredis/key/set.py:54-76 | the encoded value is no longer a member; removing a value that was not a member is `KeyError` |
| KeySet.Pop | ooredis/key/set.py:80-103 | an empty set is `KeyError`; otherwise the chosen member is removed and returned decoded |
| KeySet.Random | ooredis/key/set.py:107-129 | an empty set gives `None`; otherwise a member decoded, the set unchanged |
| KeySet.Move | ooredis/key/set.py:133-159 | the encoded member leaves this set and joins the destination; a member not in this set is `KeyError`; a type mismatch is `TypeError` |
| KeySet.Operands | ooredis/key/set.py:341 | both operands of a set operation as Python sets, or `TypeError` |
| KeySet.IsDisjoint | ooredis/key/set.py:161-183 | true exactly when no member of one operand is in the other |
| KeySet.Le | ooredis/key/set.py:185-206 | true exactly when every member is also in the other operand |
| KeySet.Lt | ooredis/key/set.py:208-227 | a subset and the other operand has a member this one lacks |
| KeySet.Ge | ooredis/key/set.py:229-250 | true exactly when every member of the other operand is a member |
| KeySet.Gt | ooredis/key/set.py:252-271 | a superset with a member the other operand lacks |
| KeySet.MissingWitness | ooredis/key/set.py:208-227 | a proper subset is a subset with a witness missing from it, and the converse |
| KeySet.Or | ooredis/key/set.py:273-292 | a value is in the result exactly when it is in either operand |
| KeySet.And | ooredis/key/set.py:325-344 | a value is in the result exactly when it is in both operands |
| KeySet.Sub | ooredis/key/set.py:379-395 | a value is in the result exactly when it is in this set and not the other |
| KeySet.RSub | ooredis/key/set.py:398-404 | the operands the other way round: in the other operand and not in this set |
| KeySet.Xor | ooredis/key/set.py:437-457 | a value is in the result exactly when it is in one operand but not both |
| KeySet.IOrSet | ooredis/key/set.py:313-316 | `s \|= py_set` adds the encoding of every value of the union; SADD of nothing is `TypeError`; with lossless values the set then reads as the union |
| KeySet.IAndSet | ooredis/key/set.py:365-368 | `s &= py_set` removes the encoding of every member not in the Python set; when the stored texts are canonical the set then reads as the intersection |
| KeySet.ISubSet | ooredis/key/set.py:425-428 | `s -= py_set` removes the encoding of every member also in the Python set; when the stored texts are canonical the set then reads as the difference |
| KeySet.IOrKey | ooredis/key/set.py:317-320 | `s \|= key` stores the union of the two stored sets; a key of another type is `TypeError` |
| KeySet.IAndKey | ooredis/key/set.py:369-374 | an existing other key not holding a set is `TypeError`; otherwise the stored set becomes the intersection |
| KeySet.ISubKey | ooredis/key/set.py:429-432 | `s -= key` stores the difference of the two stored sets |
| KeySet.StringInPlace | ooredis/type_case/string_type_case.py:10-31 | with the string codec every stored text is canonical, so the in-place operations with a Python set read back exactly as Python's |
| MixList.Len | ooredis/mix/list.py:38-54 | the number of items, 0 for an absent key; `TypeError` exactly when the key holds another type |
| MixList.GetAt | ooredis/mix/list.py:138-144 | an index at or past the end is `IndexError`; an index in range reads that item by the codec; an index below `-len` gives `None`, as LINDEX replies nothing there |
| MixList.GetSlice | ooredis/mix/list.py:124-137 | Python's `l[a:b:c]` of the whole list, any step included, each item read by the codec; a zero step is `ValueError`; a key of another type `TypeError` |
| MixList.StringSliceIsSlice | ooredis/mix/list.py:136-137 | with the string codec a slice, with any non-zero step, comes back as the stored texts themselves |
| MixList.SetItem | ooredis/mix/list.py:56-98 | an absent key is `IndexError`; a slice is `NotImplementedError`; an index at or past the end is `IndexError`; a value the codec refuses is `ValueError`, at any index below the length, since the value is converted before LSET; an index below `-len` with a convertible value is LSET's error, `TypeError`; otherwise exactly that item is replaced and reads back as the value |
| MixList.SetAtReadsBack | ooredis/mix/list.py:94-96 | after LSET at an index in range, the item there reads back as the value |
| MixList.SetIndexThenIndex | ooredis/mix/list.py:94-96 | reading the index just assigned gives the assigned text |
| MixList.TrimRange | ooredis/mix/list.py:170-185 | the LTRIM range is defined exactly for the slices `[:]`, `[x:]` and `[:y]`, whatever their step |
| MixList.TrimRangeDeletes | ooredis/mix/list.py:170-180 | for those slices without a step, except `[0:]`, LTRIM keeps exactly what Python's `del` leaves |
| MixList.DeleteFromZeroKeepsAll | ooredis/mix/list.py:176-177 | `del l[0:]` as written asks LTRIM to keep `0..-1`, the whole list, where Python's `del` empties it |
| MixList.TrimRangeCorrected | ooredis/mix/list.py:170-185 | the same ranges, except that `[0:]` keeps nothing and a stepped slice has no range |
| MixList.TrimRangeCorrectedDeletes | ooredis/mix/list.py:170-180 | the corrected range keeps exactly what Python's `del` leaves for every supported slice |
| MixList.StepIgnored | ooredis/mix/list.py:170-174 | `del l[::2]` as written sends the LTRIM range that empties the list, where Python's `del` keeps the second item |
| MixList.DelItem | ooredis/mix/list.py:146-187 | an index or a two-sided slice is `NotImplementedError`; a key of another type is `TypeError`; otherwise the list becomes what the as-written LTRIM range keeps, the step ignored |
| MixList.DelItemCorrected | ooredis/mix/list.py:146-187 | as `DelItem`, with the list becoming exactly what Python's `del` leaves; a stepped slice is refused with `NotImplementedError` |
| MixList.Remove | ooredis/mix/list.py:189-208 | every item equal to the value's text is removed and their number returned; `ValueError`/`TypeError` leave the server unchanged |
| MixList.LPush | ooredis/mix/list.py:211-230 | the value's text goes on the left end |
| MixList.RPush | ooredis/mix/list.py:283-302 | the value's text goes on the right end |
| MixList.LPop | ooredis/mix/list.py:232-251 | an empty list is `IndexError`; otherwise the first item is removed and returned read by the codec |
| MixList.RPop | ooredis/mix/list.py:304-323 | an empty list is `IndexError`; otherwise the last item is removed and returned read by the codec |
| MixList.BLPop | ooredis/mix/list.py:253-282 | an empty list gives `None`, as after a positive timeout (timeout 0 blocks: see Left out); otherwise the first item is removed and returned, every other key untouched |
| MixList.BRPop | ooredis/mix/list.py:325-351 | an empty list gives `None`, as after a positive timeout (timeout 0 blocks: see Left out); otherwise the last item is removed and returned, every other key untouched |
| MixList.RPopLPush | ooredis/mix/list.py:353-377 | the last item moves to the head of the destination and is returned read by the codec (onto the list itself, a rotation); an empty source gives `None` with nothing changed; a type mismatch is `TypeError`; no key but the two changes |
| MixList.BRPopLPush | ooredis/mix/list.py:379-402 | as `RPopLPush`, item, source, destination and frame alike, an empty source giving `None`, as after a positive timeout (timeout 0 blocks: see Left out) |
| MixList.LPushThenLPop | ooredis/mix/list.py:211-251 | `lpush(v)` then `lpop()` gives `v` back and leaves the list as it was |
| MixList.RPushThenRPop | ooredis/mix/list.py:283-323 | `rpush(v)` then `rpop()` gives `v` back and leaves the list as it was |
| MixSet.Members | ooredis/mix/set.py:18-20 | the members of a set key read by the codec; `{}` for an absent key; `TypeError` for a key of another type |
| MixSet.OtherMembers | ooredis/mix/set.py:18-20 | a Python set operand is taken as it is; a set key operand is its members read by its own codec |
| MixSet.StringMembers | ooredis/mix/set.py:18-20 | with the string codec the members come back as the stored texts themselves |
| MixSet.Len | ooredis/mix/set.py:31-46 | the number of stored members, 0 for an absent key; `TypeError` exactly when the key holds another type |
| MixSet.Iter | ooredis/mix/set.py:48-64 | the members, read by the codec |
| MixSet.Contains | ooredis/mix/set.py:66-85 | `ValueError` for a value the codec refuses, `TypeError` for a key of another type, otherwise true exactly when the value's text is a member |
| MixSet.Add | ooredis/mix/set.py:87-110 | the members afterwards are the old ones plus the value's text; codec and type errors leave the server unchanged; other keys untouched |
| MixSet.Remove | ooredis/mix/set.py:112-138 | the value's text is no longer a member; with `check` an absent member is `KeyError`; errors leave the server unchanged |
| MixSet.Pop | ooredis/mix/set.py:140-162 | an empty set is `KeyError`; otherwise the chosen member is removed and returned read by the codec |
| MixSet.Random | ooredis/mix/set.py:164-184 | an empty set gives `None`; otherwise a member read by the codec, with the set unchanged |
| MixSet.Move | ooredis/mix/set.py:186-214 | the member's text leaves this set and joins the destination; a member not in this set is `KeyError`; a type mismatch is `TypeError` |
| MixSet.Operands | ooredis/mix/set.py:18-20 | both operands of a set operation as Python sets, or the first error met reading them |
| MixSet.IsDisjoint | ooredis/mix/set.py:216-231 | true exactly when no member of one operand is in the other |
| MixSet.Le | ooredis/mix/set.py:235-250 | true exactly when every member is also in the other operand |
| MixSet.Lt | ooredis/mix/set.py:254-269 | a subset and the other operand has a member this one lacks |
| MixSet.Ge | ooredis/mix/set.py:273-288 | true exactly when every member of the other operand is a member |
| MixSet.Gt | ooredis/mix/set.py:292-307 | a superset with a member the other operand lacks |
| MixSet.MissingWitness | ooredis/mix/set.py:254-269 | a proper subset is a subset with a witness missing from it, and the converse |
| MixSet.Or | ooredis/mix/set.py:311-329 | a value is in the result exactly when it is in either operand |
| MixSet.And | ooredis/mix/set.py:360-379 | a value is in the result exactly when it is in both operands |
| MixSet.Sub | ooredis/mix/set.py:409-424 | a value is in the result exactly when it is in this set and not the other |
| MixSet.RSub | ooredis/mix/set.py:426-431 | the operands the other way round: in the other operand and not in this set |
| MixSet.Xor | ooredis/mix/set.py:462-481 | a value is in the result exactly when it is in one operand but not both |
| MixSet.IOr | ooredis/mix/set.py:331-356 | a Python set operand fails on its missing attribute; an existing other key not holding a set is `TypeError`; otherwise the stored set becomes the union of the two stored sets |
| MixSet.IAnd | ooredis/mix/set.py:381-405 | as `IOr`, the stored set becoming the intersection |
| MixSet.ISub | ooredis/mix/set.py:433-457 | as `IOr`, the stored set becoming the difference |
| MixSet.AddThenContains | ooredis/mix/set.py:87-110 | after `add(e)` the set contains `e`'s text and iterating it yields `e` again |
| RedisClient.Client.Send | ooredis/key/base_key.py:35 | the key's client answers a command with the command's reply and takes on the state the command leaves |
| RedisClient.Reply | ooredis/key/helper.py:24-28 | the reply of a command that succeeded, or its error unchanged |
| Python.Index | ooredis/key/deque.py:358 | Python's `s[i]`: defined exactly for `-len <= i < len`, negative indices counting from the end; otherwise `IndexError` |
| Python.SetIndex | ooredis/key/deque.py:380-381 | Python's `s[i] = x`: the same range, exactly that position replaced |
| Python.DelSubscript | ooredis/key/deque.py:315-316 | Python's `del s[i]` removes one element in range and is `IndexError` outside; a slice is `ValueError` exactly on a zero step; `del s[:]` empties; a unit-step slice removes exactly as many items as the slice holds; a stepped slice keeps every item off the stride |
| Python.Count | ooredis/key/deque.py:140 | `list.count`: the number of occurrences |
| Python.StepSlice | ooredis/key/deque.py:358 | Python's `s[a:b:c]`: `ValueError` exactly on a zero step; a unit step is the plain slice; every item comes from `s` |
| Python.StrideAt | ooredis/key/deque.py:358 | the `j`-th item of a stepped slice is the item `j` steps on from its start, and that position is in range |
| Python.KeepUnless | ooredis/key/deque.py:315-316 | a stepped `del` keeps every item off the stride and adds none |
| Python.Without | ooredis/mix/list.py:206 | LREM with count 0: every occurrence removed, everything else kept in order |
| Wire.IntRoundTrip | ooredis/type_case/int_type_case.py:22-36 | `int(str(n)) == n` for every integer |
| Wire.PyLong | ooredis/type_case/int_type_case.py:33-34 | Python 2's `long(s)` reads everything `int(s)` reads, to the same integer |
| Wire.Truncate | ooredis/type_case/int_type_case.py:31 | `int()` of a float fails exactly for the infinities (`OverflowError`) and `nan` (`ValueError`) |
| Wire.IntOf | ooredis/type_case/int_type_case.py:31 | `int(v)`: an integer passes; a string parses exactly when it is an integer literal; a float fails exactly when infinite or `nan`; anything else is `TypeError` |
| Wire.FloatLiteralIsNotInt | ooredis/type_case/generic_type_case.py:37-39 | `int()` refuses every float literal and `float()` reads it as itself |
| Wire.RedisIntRoundTrip | ooredis/mix/dict.py:155-156 | the server reads back the decimal text of every 64-bit integer as that integer |
| Store.IncrBy | ooredis/mix/single_value.py:123-126 | INCRBY: an absent key counts from 0; a text that is no 64-bit integer, or a key of another type, is a server error; the key then holds the decimal text of the reply and keeps its expiry |
| Store.DecrBy | ooredis/mix/single_value.py:146-149 | DECRBY is INCRBY by minus the decrement |
| ZOrder.RankCountsPredecessors | ooredis/key/sorted_set.py:194-213 | in a listing ordered by (score, member) a member's position equals the number of entries that precede it |
| ZOrder.UpsertRanked | ooredis/key/sorted_set.py:84-106 | ZADD keeps the listing ordered, the member now listed once with the new score and every other entry kept |
| ZOrder.UpsertTwice | ooredis/key/sorted_set.py:84-106 | giving a member a score twice is giving it the second score once |
| ZSetCommands.ZAddTwice | ooredis/mix/sorted_set.py:81-99 | `s[m] = a` then `s[m] = b` leaves the same sorted set as `s[m] = b` alone |
| ZSetCommands.RankFollowsScore | ooredis/mix/sorted_set.py:185-216 | a member with a lower score has a lower rank |
| SetCommands.SAddThenSRem | ooredis/mix/set.py:87-138 | adding members and removing them again leaves the old members minus those, the removal counting them all |
| HashCommands.HSetThenHGet | ooredis/key/dict.py:46-93 | a field just set reads back as the text it was given |
| HashCommands.HIncrByFromNothing | ooredis/mix/dict.py:136-158 | incrementing an absent field gives the increment and stores it |
| MixString.Stored | ooredis/mix/string.py:52-72 | an absent key reads as `None`; a key of another type is `TypeError`; a text is read by the codec |
| MixString.StoredText | ooredis/mix/string.py:66-70 | a key holding a text reads as the codec's reading of that text |
| MixString.Set | ooredis/mix/string.py:19-50 | an existing key of another type is `TypeError`; an existing key with `preserve` is `ValueError`; a value the codec refuses is `ValueError`; a negative expiry is SETEX's error; otherwise the key holds the value's text, with the expiry when one is given, and reads back as the value |
| MixString.Get | ooredis/mix/string.py:52-72 | the stored value read by the codec, `None` when absent |
| MixString.GetSet | ooredis/mix/string.py:74-99 | the old value read by the codec, and the key then holds the new value's text without an expiry |
| MixString.Repr | ooredis/mix/string.py:16-17 | `"<Class> Key '<name>': <value>"` for the current value |
| MixString.SetThenGet | ooredis/mix/string.py:19-72 | `set(v)` then `get()` gives `v` back for every value the codec keeps |
| KeyString.Repr | ooredis/key/string.py:18-19 | `"<Class> Key '<name>': <value>"` for the current value; a key of another type is `TypeError` |
| KeyString.AbsentShowsNone | ooredis/key/string.py:18-19 | an absent key shows as `"String Key '<name>': None"` |
| SetAndGetOpMixin.Stored | ooredis/key/set_and_get_op_mixin.py:97-116 | an absent key reads as `None`; a key of another type is `TypeError`; a text is decoded |
| SetAndGetOpMixin.StoredText | ooredis/key/set_and_get_op_mixin.py:112-116 | a key holding a text reads as that text decoded |
| SetAndGetOpMixin.IntTextReads | ooredis/type_case/int_type_case.py:22-36 | with the integer codec a text `int()` accepts reads as that integer |
| SetAndGetOpMixin.DecimalTextReads | ooredis/type_case/int_type_case.py:22-36 | with the integer codec the decimal text of an integer reads as that integer |
| SetAndGetOpMixin.SetThenGet | ooredis/key/set_and_get_op_mixin.py:29-116 | `set(v)` then `get()` gives `v` back for every value the codec keeps |
| SetAndGetOpMixin.RaiseWhenSetWrongType | ooredis/key/set_and_get_op_mixin.py:10-21 | passes exactly when the key is absent or holds a string; otherwise `TypeError` |
| SetAndGetOpMixin.Set | ooredis/key/set_and_get_op_mixin.py:29-48 | a key of another type is `TypeError`; otherwise the key holds the encoded value, and reads back as the value |
| SetAndGetOpMixin.SetNx | ooredis/key/set_and_get_op_mixin.py:51-70 | true exactly when the key was absent, and then the key holds the encoded value; false leaves the server unchanged |
| SetAndGetOpMixin.SetEx | ooredis/key/set_and_get_op_mixin.py:73-94 | the key holds the encoded value with the given time to live; a time to live that is not positive is SETEX's error |
| SetAndGetOpMixin.Get | ooredis/key/set_and_get_op_mixin.py:97-116 | the stored value decoded, `None` when absent |
| SetAndGetOpMixin.GetSet | ooredis/key/set_and_get_op_mixin.py:119-143 | the old value decoded, and the key then holds the new encoded value |
| MixSingleValue.Set | ooredis/mix/single_value.py:21-53 | as `MixString.Set`: type and `preserve` errors first, then the value's text with its expiry, reading back as the value; every other key untouched |
| MixSingleValue.Get | ooredis/mix/single_value.py:55-72 | the stored value read by the codec, `None` when absent |
| MixSingleValue.GetSet | ooredis/mix/single_value.py:74-96 | the old value read by the codec, and the key then holds the new value's text |
| MixSingleValue.Repr | ooredis/mix/single_value.py:15-19 | `format_key` of the class name, the key name and the current value read by the codec |
| MixSingleValue.DecimalReads | ooredis/type_case.py:43-100 | every codec but the string one reads the decimal text of an integer as that integer |
| MixSingleValue.IncrByReadsBack | ooredis/mix/single_value.py:105-126 | after INCRBY the key reads as the reply, and an existing key held the integer that the increment took to the reply |
| MixSingleValue.TextsReadBack | ooredis/mix/single_value.py:105-126 | decimal texts before and after INCRBY read back as their integers |
| MixSingleValue.IncrByAdds | ooredis/mix/single_value.py:105-126 | with a numeric codec, after INCRBY the key reads as its old integer (0 when absent) plus the increment, every other key untouched |
| MixSingleValue.Incr | ooredis/mix/single_value.py:105-126 | INCRBY's reply, any server error being `TypeError` with nothing changed; with a numeric codec the key held an integer, or was absent, and now reads as that plus the increment; every other key untouched |
| MixSingleValue.Decr | ooredis/mix/single_value.py:128-149 | DECRBY's reply; with a numeric codec the key now reads as its old integer (0 when absent) minus the decrement; every other key untouched |
| MixSingleValue.IAdd | ooredis/mix/single_value.py:151-169 | `c += n` succeeds exactly when `incr(n)` does, gives the counter itself, and leaves it reading the old value plus `n`, every other key untouched |
| MixSingleValue.ISub | ooredis/mix/single_value.py:171-189 | `c -= n` succeeds exactly when `decr(n)` does, gives the counter itself, and leaves it reading the old value minus `n`, every other key untouched |
| MixCounter.Incr | ooredis/mix/counter.py:17-38 | INCRBY's reply, any server error being `TypeError` with nothing changed; with a numeric codec the key now reads as its old integer (0 when absent) plus the increment; every other key untouched |
| MixCounter.Decr | ooredis/mix/counter.py:40-61 | DECRBY's reply; with a numeric codec the key now reads as its old integer (0 when absent) minus the decrement; every other key untouched |
| MixCounter.IAdd | ooredis/mix/counter.py:63-81 | `c += n` succeeds exactly when `incr(n)` does, gives the counter itself, and leaves it reading the old value plus `n`, every other key untouched |
| MixCounter.ISub | ooredis/mix/counter.py:83-101 | `c -= n` succeeds exactly when `decr(n)` does, gives the counter itself, and leaves it reading the old value minus `n`, every other key untouched |
| KeyCounter.NewCounter | ooredis/key/counter.py:20-25 | a counter is a key built with the integer codec unless another is given |
| KeyCounter.DefaultCodecIsInt | ooredis/key/counter.py:20 | the default codec of a counter is the integer one |
| KeyCounter.IncrByReadsBack | ooredis/key/counter.py:28-47 | after INCRBY the key decodes as the reply, and an existing key held the integer that the increment took to the reply |
| KeyCounter.TextsReadBack | ooredis/key/counter.py:28-47 | decimal texts before and after INCRBY decode as their integers |
| KeyCounter.IncrAnswer | ooredis/key/counter.py:28-47 | what `incr` answers on any server state: `TypeError` with nothing changed, or the new value, which the key then holds and which is the old value plus the increment |
| KeyCounter.DecrAnswer | ooredis/key/counter.py:50-69 | the same for `decr`, the new value being the old one minus the decrement, every other key untouched |
| KeyCounter.Incr | ooredis/key/counter.py:28-47 | INCRBY's reply through the wrapper; the key held an integer, or was absent, and now decodes as that plus the increment; every other key untouched |
| KeyCounter.Decr | ooredis/key/counter.py:50-69 | DECRBY's reply; the key now decodes as its old integer (0 when absent) minus the decrement; every other key untouched |
| KeyCounter.IAdd | ooredis/key/counter.py:72-90 | `c += n` succeeds exactly when `incr(n)` does, gives the counter itself, and leaves it holding the old integer plus `n`, every other key untouched |
| KeyCounter.ISub | ooredis/key/counter.py:93-111 | `c -= n` succeeds exactly when `decr(n)` does, gives the counter itself, and leaves it holding the old integer minus `n`, every other key untouched |
| MixSortedSet.Len | ooredis/mix/sorted_set.py:37-52 | the number of members, 0 for an absent key; `TypeError` exactly when the key holds another type |
| MixSortedSet.Contains | ooredis/mix/sorted_set.py:54-79 | `ValueError` for a value the codec refuses, `TypeError` for a key of another type, otherwise true exactly when the value's text is a member |
| MixSortedSet.SetItem | ooredis/mix/sorted_set.py:81-99 | the member's text now has exactly the given score; every other member keeps its score; the set stays ordered |
| MixSortedSet.GetAt | ooredis/mix/sorted_set.py:101-129 | the `{value, score}` dict of the entry Python's `s[i]` names in rank order; out of range is `IndexError` |
| MixSortedSet.GetSlice | ooredis/mix/sorted_set.py:119-124 | the dicts of Python's `s[a:b:c]` of the entries in rank order; scores never decrease along the result for a positive step and never increase for a negative one; a zero step is `ValueError` |
| MixSortedSet.DelItem | ooredis/mix/sorted_set.py:131-158 | `del s[i]` removes exactly Python's entry and is `IndexError` out of range; a slice removes what the as-written rank range cuts, the step ignored |
| MixSortedSet.DelItemCorrected | ooredis/mix/sorted_set.py:131-158 | as `DelItem`, with every slice without a step removing exactly what Python's `del` removes; a stepped slice is refused with `NotImplementedError` and nothing changed |
| MixSortedSet.Remove | ooredis/mix/sorted_set.py:160-183 | the member is no longer listed and every other entry stays; with `check` an absent member is `KeyError` |
| MixSortedSet.Rank | ooredis/mix/sorted_set.py:185-216 | an absent member is `KeyError`; otherwise its position in rank order, equal to the number of entries that precede it; with `reverse` its position counted from the end |
| MixSortedSet.Score | ooredis/mix/sorted_set.py:218-243 | an absent member is `KeyError`; otherwise the score it is listed with |
| MixSortedSet.Incr | ooredis/mix/sorted_set.py:245-268 | the new score is the old one (0 for a new member) plus the increment, returned and stored; every other member keeps its score |
| MixSortedSet.Decr | ooredis/mix/sorted_set.py:270-289 | as `Incr` with the decrement subtracted |
| KeySortedSet.Len | ooredis/key/sorted_set.py:38-55 | the number of members, 0 for an absent key; `TypeError` exactly when the key holds another type |
| KeySortedSet.Contains | ooredis/key/sorted_set.py:58-81 | `TypeError` for a value that cannot be encoded or a key of another type; otherwise true exactly when the encoded value is a member |
| KeySortedSet.SetItem | ooredis/key/sorted_set.py:84-106 | the encoded member now has exactly the given score; every other member keeps its score; the set stays ordered |
| KeySortedSet.GetAt | ooredis/key/sorted_set.py:109-141 | the `{value, score}` dict of the entry Python's `s[i]` names; out of range is `IndexError` |
| KeySortedSet.GetSlice | ooredis/key/sorted_set.py:136-138 | the dicts of Python's `s[a:b:c]` of the entries in rank order; scores never decrease for a positive step and never increase for a negative one; a zero step is `ValueError` |
| KeySortedSet.DelItem | ooredis/key/sorted_set.py:144-170 | `del s[i]` removes exactly Python's entry and is `IndexError` out of range; a slice removes what the as-written rank range cuts, the step ignored |
| KeySortedSet.DelItemCorrected | ooredis/key/sorted_set.py:144-170 | as `DelItem`, with every slice without a step removing exactly what Python's `del` removes; a stepped slice is refused with `NotImplementedError` and nothing changed |
| KeySortedSet.Remove | ooredis/key/sorted_set.py:173-191 | the member is no longer listed and every other entry stays; an absent member is no error |
| KeySortedSet.Rank | ooredis/key/sorted_set.py:194-213 | `None` exactly for an absent member; otherwise its position in rank order, equal to the number of entries that precede it |
| KeySortedSet.ReverseRank | ooredis/key/sorted_set.py:216-235 | `None` exactly for an absent member; otherwise its position counted from the highest score |
| KeySortedSet.Score | ooredis/key/sorted_set.py:238-257 | `None` exactly for an absent member; otherwise the score it is listed with |
| KeySortedSet.Incr | ooredis/key/sorted_set.py:260-282 | the new score is the old one (0 for a new member) plus the increment, returned and stored |
| KeySortedSet.Decr | ooredis/key/sorted_set.py:285-305 | as `Incr` with the decrement subtracted |
| SortedSetIndexing.MemberTexts | ooredis/key/sorted_set.py:136-141 | the members of the listed entries, one per entry, in rank order |
| SortedSetIndexing.Items | ooredis/mix/sorted_set.py:119-124 | one `{value, score}` dict per entry, its member read by the codec, or the codec's error when some member cannot be read |
| SortedSetIndexing.ItemOf | ooredis/mix/sorted_set.py:126-127 | the dict of one entry |
| SortedSetIndexing.ItemsOfOne | ooredis/mix/sorted_set.py:126-127 | the dicts of a one-entry listing are that entry's dict |
| SortedSetIndexing.ItemOfWritten | ooredis/mix/sorted_set.py:81-127 | a member written by the codec reads back in its dict as the value it was written from |
| SortedSetIndexing.WindowOfIndex | ooredis/mix/sorted_set.py:126 | ZRANGE of `i..i` holds one entry exactly when `-len <= i < len`, the one at Python's position `i` |
| SortedSetIndexing.WindowFrom | ooredis/mix/sorted_set.py:149-150 | a rank range ending at -1 is Python's `[a:]` |
| SortedSetIndexing.Cut | ooredis/mix/sorted_set.py:152 | what ZREMRANGEBYRANK leaves never has more entries than before |
| SortedSetIndexing.IndexWindow | ooredis/mix/sorted_set.py:126-127 | `s[i]` is in range exactly when ZRANGE of `i..i` is non-empty, and then holds exactly Python's entry |
| SortedSetIndexing.IndexCut | ooredis/mix/sorted_set.py:153-156 | removing the rank range `i..i` removes exactly Python's `del s[i]` |
| SortedSetIndexing.RankRange | ooredis/mix/sorted_set.py:148-150 | the start is kept; the stop is one less than the slice's stop |
| SortedSetIndexing.RankRangeDeletes | ooredis/mix/sorted_set.py:148-152 | for every stop but 0 the as-written range removes exactly what Python's `del` on the slice removes |
| SortedSetIndexing.StopZeroRemovesAll | ooredis/mix/sorted_set.py:150 | `del s[:0]` as written empties a non-empty sorted set, where Python's `del` removes nothing |
| SortedSetIndexing.RankRangeCorrected | ooredis/mix/sorted_set.py:148-150 | agrees with the as-written range for every stop but 0 |
| SortedSetIndexing.RankRangeCorrectedDeletes | ooredis/mix/sorted_set.py:148-152 | the corrected range removes exactly what Python's `del` removes, for every slice |
| SortedSetIndexing.SliceRanked | ooredis/mix/sorted_set.py:123-124 | a slice of a listing in rank order is in rank order |
| SortedSetIndexing.StepSliceOrdered | ooredis/mix/sorted_set.py:122-124 | a slice with a positive step of a listing in rank order is in rank order, and with a negative step in reverse rank order |
| SortedSetIndexing.StepIgnored | ooredis/mix/sorted_set.py:148-152 | `del s[::2]` as written removes every entry, where Python's `del` keeps the second |
| SortedSetIndexing.AssignThenRead | ooredis/mix/sorted_set.py:81-127 | `s[v] = score` then `s[s.rank(v)]`: the member has that score and its dict reads back as `v` |

## Left out

- Connection management: `ooredis/client.py` and `ooredis/server.py` are not part of this model. The shared client that a key gets by default is an explicit `RedisClient.Client`, and these two files are replaced by the `Store` value.
- Float, JSON and pickle codecs (`FloatTypeCase`, `JsonTypeCase`, `SerializeTypeCase` and their `type_case` package files) are not modelled: they are floating point or calls into foreign serializers. Inside the generic codecs, `float()` is modelled on its accepted text (`Python.IsFloatText`: a sign, then `inf`, `infinity` or `nan` in any case, or a mantissa with an optional exponent).
- A Python float is its literal (`Python.FloatLiteral`), an exact decimal. IEEE rounding, a huge exponent overflowing to `inf`, and the text `str()` gives a float (`1e5` shows as `100000.0`) are not modelled: the model writes a float back as the literal it was read from.
- Python's `==` between values is structural here: `1 == 1.0` is false and a `nan` equals itself. Of the modelled operations only `KeyDeque.Count` compares decoded values with Python's `==`; with it, an item `1` is not counted for the value `1.0`. The other membership tests compare the stored texts, as the server does.
- `Iter` of `KeyDeque`, `MixDeque`, `KeySet`, `MixSet`, `KeyDict` and `MixDict` returns the whole sequence read at the call. The source's generators read the server lazily, so changes made while iterating are not modelled.
- DelItemCorrected (`MixList.DelItemCorrected`, `MixSortedSet.DelItemCorrected`, `KeySortedSet.DelItemCorrected`): a slice with a step is refused with `NotImplementedError` and nothing changed, because no single LTRIM or ZREMRANGEBYRANK removes a stride; the as-written `DelItem`s ignore the step.
- Time: the clock is the fixed number `Store.Store.now`. Keys never expire while an operation runs. An `expireat` timestamp is a plain number compared with `now`.
- Blocking pops (`KeyDeque.BlockPop`, `KeyDeque.BlockPopLeft`, `MixList.BLPop`, `MixList.BRPop`, `MixList.BRPopLPush`) are modelled at the moment of the call. They give the element when there is one. On an empty list they give `None`, which is what the source returns once a positive timeout runs out. With timeout 0, the default of all five (`INDEFINITELY` in `ooredis/mix/list.py:17`), the source blocks until another client pushes, and with no other client it never returns; the model returns `None` in its place. The timeout is a `nat`: a negative timeout, which Redis refuses with an error, is excluded.
- The random choices of SPOP and SRANDMEMBER are a parameter, `choice`, of `Pop` and `Random`. Those methods require `choice` to be a member whenever the set is non-empty.
- Concurrency is not modelled; the model is sequential. `__setitem__` and `__delitem__` of the second-generation `Deque` read the list, delete the key and write it back, so another client could see or change the key in between.
- The Python `repr` of collections is not modelled. `KeyString.Repr`, `MixString.Repr` and `MixSingleValue.Repr` model only the fixed `format_key` template, around the value's text.
- Python 2's `str` / `unicode` split is collapsed into one string type. Python's `bool` (a subclass of `int`) is not a value of the model.
- Every `ooredis/key/*` file imports `wrap_exception`, but `ooredis/key/helper.py` defines only `raise_when_wrong_type`; the model treats them as the same translation, `KeyHelper.RaiseWhenWrongType`.
- `ooredis/key/set.py` and `ooredis/key/sorted_set.py` call `self._encode` / `self._decode`, which `BaseKey` never defines (`ooredis/key/base_key.py:36-37` sets only `self.encode` and `self.decode`). As written, those calls raise `AttributeError`. The model reads them as `encode` / `decode`, like the other second-generation key files do. This affects `KeySet.Add`, `KeySet.Remove`, `KeySet.Pop`, `KeySet.Random`, `KeySet.Move`, `KeySet.IOrSet`, `KeySet.IAndSet`, `KeySet.ISubSet`, `KeySet.Iter`, `KeySet.Contains` (and, through `Iter`, `KeySet.Members` and the operators built on it), and `KeySortedSet.Contains`, `KeySortedSet.SetItem`, `KeySortedSet.GetAt`, `KeySortedSet.GetSlice`, `KeySortedSet.Remove`, `KeySortedSet.Rank`, `KeySortedSet.ReverseRank`, `KeySortedSet.Score`, `KeySortedSet.Incr` and `KeySortedSet.Decr`.
- `get_key_name_from_single_value` is `MixHelper.NameOf`. It distinguishes a key from a name by the datatype, not by an `isinstance` test on arbitrary objects.
- Sorted-set scores are integers. Redis's floating-point scores, and their rendering as text, are not modelled.
- Other iterables are not modelled as operands of the set operators: the other operand is a set key or, for the second generation's in-place operators, a Python set.
- The generic methods that `collections.Sequence` (the first generation's `List`) and `collections.MutableMapping` (both `Dict` classes) derive from the modelled ones (`index`, `__reversed__`, `keys`, `items`, `get`, `pop`, `update`, …) are not modelled.
- Slice assignment, `d[a:b] = xs`, on the second generation's `Deque` is not modelled: `KeyDeque.SetItem` takes an index. Slice deletion is modelled.
- SADD and SREM with no members at all are refused: the Store gives them a `ResponseError`, which becomes `TypeError`. The second generation's `&=`, `-=` and `|=` with a Python set can send such a call. Redis's real answer is outside this model.
- The field names of HKEYS are returned as a set, so their order is not modelled.
- KeySortedSet and MixSortedSet: every method requires `Store.Valid` of the server, so that a stored sorted set is a ranked listing. A server that Redis itself could not produce is not considered.
- The first generation's `Dict.__delitem__` is silent on an absent field, and the model follows that code (`MixDict.DelItem`).
- The first generation's in-place set operators with a Python set read `other.exists`, which a Python set does not have. The model follows the code and gives `AttributeError` (`MixSet.IOr`, `MixSet.IAnd`, `MixSet.ISub`).
- The docstring of the first generation's `SortedSet.__getitem__` promises `KeyError`, but out-of-range indexing raises `IndexError` (`[...][0]` on an empty list). The model follows the code.
- Tests whose expectations contradict the code are not modelled. Where they disagree, the model follows the code: `IntTypeCase.to_redis('3')`, removing from a first-generation set without `check`, and the first generation's `|=` with a Python set.

## Findings

| source | as written | input that shows it | evidently intended | confidence | as-written member | corrected member |
|---|---|---|---|---|---|---|
| ooredis/mix/list.py:176-177 | `del l[x:]` sends `ltrim(0, x-1)` | `del l[0:]` on a non-empty list sends `ltrim(0, -1)`, which keeps every element | `del l[0:]` empties the list, as Python's `del` on that slice does | high; not executed | MixList.DelItem, MixList.DeleteFromZeroKeepsAll | MixList.DelItemCorrected, MixList.TrimRangeCorrectedDeletes |
| ooredis/mix/sorted_set.py:150 | a slice stop `b` becomes the inclusive rank `b - 1` (the same line is ooredis/key/sorted_set.py:164) | `del s[:0]` on a non-empty sorted set sends `zremrangebyrank(0, -1)`, which removes every member | `del s[:0]` removes nothing, as Python's `del` on that slice does | high; not executed | MixSortedSet.DelItem, KeySortedSet.DelItem, SortedSetIndexing.StopZeroRemovesAll | MixSortedSet.DelItemCorrected, KeySortedSet.DelItemCorrected, SortedSetIndexing.RankRangeCorrectedDeletes |
| ooredis/key/deque.py:20-78 | `append` and `extend` carry no wrong-type translation | `append(1)` on a key holding a string lets the driver's `ResponseError` through | `TypeError`, as the docstrings say and as every other method of the class gives | high; not executed | KeyDeque.Append, KeyDeque.Extend | KeyDeque.AppendCorrected, KeyDeque.ExtendCorrected |
| ooredis/key/deque.py:361-383 | `d[i] = item` deletes the key before `extend` encodes the new item | `d[0] = {1}` (a set, which the generic codec refuses) on a deque holding `[1]` raises `TypeError` only after the key has been deleted | an item the codec refuses changes nothing | medium; not executed | KeyDeque.SetItem | KeyDeque.SetItemCorrected |
| ooredis/mix/list.py:170-180 | a slice's step is never read: only its start and stop choose the LTRIM range (and likewise the ZREMRANGEBYRANK range at ooredis/mix/sorted_set.py:148-152 and ooredis/key/sorted_set.py:162-166) | `del l[::2]` on a list or `del s[::2]` on a sorted set with two or more elements removes every element | Python's `del` on a stepped slice, which keeps every element off the stride, or a refusal | high; not executed | MixList.DelItem, MixList.StepIgnored, MixSortedSet.DelItem, KeySortedSet.DelItem, SortedSetIndexing.StepIgnored | MixList.DelItemCorrected, MixList.TrimRangeCorrected, MixSortedSet.DelItemCorrected, KeySortedSet.DelItemCorrected |
