/**
 * Properties of the `Jwt` strategy that relate several calls, or a call and the
 * configuration, stated over any codec.
 */
module JwtSessionProperties {
  import opened Wrappers
  import opened PhpArray
  import opened JwtCodec
  import opened JwtSession

  /** Constructing with nothing but a secret keeps that secret, even an empty
      string, and selects HS256. */
  lemma OnlySecretDefaultsAlgorithm(secret: Value)
    requires secret != Null
    ensures Configure(map["secret" := secret]) == Success(map["secret" := secret, "algorithm" := Str("HS256")])
  {
    var r := Configure(map["secret" := secret]).value;
    var expected := map["secret" := secret, "algorithm" := Str("HS256")];
    assert r.Keys == expected.Keys;
    assert r["secret"] == secret && r["algorithm"] == Str("HS256");
    assert r == expected;
  }

  /** Options whose key is absent, null, "" or "0" all read the whole payload,
      exactly as an empty options array does. */
  lemma FalsyKeyReadsWholePayload(j: Jwt, token: Value, options: Options)
    requires j.Valid()
    requires !Truthy(KeyOption(options))
    ensures j.Read(token, options) == j.Read(token, map[])
    ensures j.Decode(token).Success? ==> j.Read(token, options) == Success(Arr(j.Decode(token).value))
  {
  }

  /** Two tokens whose payloads differ only in that one of them stores null under
      `k` while the other lacks `k` read the same under every truthy key. */
  lemma StoredNullReadsAsMissing(j: Jwt, withNull: Value, without: Value, k: string, options: Options)
    requires j.Valid()
    requires j.Decode(without).Success? && k !in j.Decode(without).value
    requires j.Decode(withNull) == Success(j.Decode(without).value[k := Null])
    requires Truthy(KeyOption(options))
    ensures j.Read(withNull, options) == j.Read(without, options)
  {
    var key := KeyOption(options).s;
    if key == k {
      assert !IsSet(j.Decode(withNull).value, key);
    } else {
      assert IsSet(j.Decode(withNull).value, key) <==> IsSet(j.Decode(without).value, key);
    }
  }

  /** The merged payload has one entry more than the payload read from the null
      token when the written key is new, and as many entries otherwise. */
  lemma WrittenPayloadSize(j: Jwt, data: Value, options: Options)
    requires j.Valid()
    requires j.Decode(Null).Success?
    ensures j.WrittenPayload(data, options).Success?
    ensures var existing := j.Decode(Null).value;
      |j.WrittenPayload(data, options).value| ==
        if WriteKey(options) in existing then |existing| else |existing| + 1
  {
    OneKeyMoreSize(j.Decode(Null).value, j.WrittenPayload(data, options).value, WriteKey(options));
  }

  /** When the codec rejects a null token, every `write` fails with that codec
      exception, whatever is written. */
  lemma WriteFailsWhenNullTokenRejected(j: Jwt, data: Value, options: Options)
    requires j.Valid()
    requires j.codec.decode(Null, j.Secret(), [j.Algorithm()]).Failure?
    ensures j.Write(data, options) == Failure(DecodeError(j.codec.decode(Null, j.Secret(), [j.Algorithm()]).error))
  {
  }

  /** `write` looks at its options only through the key it stores under. */
  lemma WriteDependsOnlyOnKey(j: Jwt, data: Value, options: Options, other: Options)
    requires j.Valid()
    requires WriteKey(options) == WriteKey(other)
    ensures j.Write(data, options) == j.Write(data, other)
  {
    var mine, theirs := j.WrittenPayload(data, options), j.WrittenPayload(data, other);
    if mine.Success? {
      assert mine.value.Keys == theirs.value.Keys;
      forall k | k in mine.value
        ensures mine.value[k] == theirs.value[k]
      {
      }
      assert mine.value == theirs.value;
    }
  }

  /** A `write` without a key option, or with a null one, stores under the empty
      key, as PHP turns a null array key into "". */
  lemma WriteWithoutKeyIsEmptyKey(j: Jwt, data: Value)
    requires j.Valid()
    ensures j.Write(data, map[]) == j.Write(data, map["key" := Null])
    ensures j.Write(data, map[]) == j.Write(data, map["key" := Str("")])
  {
    WriteDependsOnlyOnKey(j, data, map[], map["key" := Null]);
    WriteDependsOnlyOnKey(j, data, map[], map["key" := Str("")]);
  }

  /** A previous token passed as the `token` option has no influence on `write`. */
  lemma WriteIgnoresTokenOption(j: Jwt, data: Value, options: Options, previous: Value)
    requires j.Valid()
    ensures KeyIsString(options["token" := previous])
    ensures j.Write(data, options) == j.Write(data, options["token" := previous])
  {
    WriteDependsOnlyOnKey(j, data, options, options["token" := previous]);
  }

  /** Two strategies that share a codec and a secret produce the same token for
      the same payload, whatever algorithms they were configured with. */
  lemma EncodeIgnoresAlgorithm(j1: Jwt, j2: Jwt, payload: PhpMap)
    requires j1.Valid() && j2.Valid()
    requires j1.codec == j2.codec && j1.Secret() == j2.Secret()
    ensures j1.Encode(payload) == j2.Encode(payload)
  {
  }

  /** Under the round-trip assumption, reading the token `write` returned under
      the written key gives back the written value. */
  lemma ReadAfterWriteWrittenKey(j: Jwt, data: Value, options: Options, readOptions: Options)
    requires j.Valid() && RoundTrips(j.codec, j.Secret(), j.Algorithm())
    requires j.Write(data, options).Success?
    requires KeyOption(readOptions) == Str(WriteKey(options)) && Truthy(KeyOption(readOptions))
    ensures j.Read(j.Write(data, options).value, readOptions) == Success(data)
  {
    var payload := j.WrittenPayload(data, options).value;
    assert j.codec.decode(Str(j.codec.encode(payload, j.Secret())), j.Secret(), [j.Algorithm()]) == Success(payload);
  }

  /** Under the round-trip assumption, every other key of the token `write`
      returned reads as it reads from the null token, not from any earlier token. */
  lemma ReadAfterWriteOtherKey(j: Jwt, data: Value, options: Options, readOptions: Options)
    requires j.Valid() && RoundTrips(j.codec, j.Secret(), j.Algorithm())
    requires j.Write(data, options).Success?
    requires Truthy(KeyOption(readOptions)) && KeyOption(readOptions) != Str(WriteKey(options))
    ensures j.Read(j.Write(data, options).value, readOptions) == j.Read(Null, readOptions)
  {
    var payload := j.WrittenPayload(data, options).value;
    assert j.codec.decode(Str(j.codec.encode(payload, j.Secret())), j.Secret(), [j.Algorithm()]) == Success(payload);
  }
}
