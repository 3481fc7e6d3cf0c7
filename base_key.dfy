/**
 * The base of the second generation of keys: a key is a name, the connection
 * it talks to and the codec it converts values with. Making one records the
 * three and sends nothing.
 */
module BaseKey {
  import opened RedisClient
  import opened Codec

  datatype Key = Key(name: string, client: Client, codec: Codec)

  /** `BaseKey(name, client, type_case)`, the codec being Generic unless given. */
  function New(name: string, client: Client, codec: Codec := Generic): (k: Key)
    ensures k.name == name && k.client == client && k.codec == codec
  {
    Key(name, client, codec)
  }

  /** `__eq__`: keys are equal when their names are. */
  predicate Equal(a: Key, b: Key) { a.name == b.name }

  /** Equality looks at the name only: the connection and the codec play no part. */
  lemma EqualIffSameName(n: string, m: string, c: Client, d: Client, x: Codec, y: Codec)
    ensures Equal(New(n, c, x), New(m, d, y)) <==> n == m
  {
  }

  lemma DefaultCodecIsGeneric(name: string, client: Client)
    ensures New(name, client).codec == Generic
  {
  }
}
