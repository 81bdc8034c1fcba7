/**
 * The `Jwt` session-storage strategy: a session's key/value payload is kept in a
 * single signed token. Reading decodes the token and picks out one key or the
 * whole payload; writing merges one key/value pair into a payload and encodes it.
 * The strategy keeps no session state of its own, only its configuration.
 */
module JwtSession {
  import opened Wrappers
  import opened PhpArray
  import opened JwtCodec

  /** The exceptions the strategy raises (a missing secret) or lets through (any
      exception the codec throws while decoding). */
  datatype Error = ConfigError(message: string) | DecodeError(message: string)

  const MissingSecret: string := "Jwt strategy requires a secret key."
  const DefaultAlgorithm: Value := Str("HS256")

  /** The strategy's default configuration. */
  const Defaults: PhpMap := map["algorithm" := DefaultAlgorithm]

  /** The `key` option, when present, names a payload key or is null. */
  predicate KeyIsString(options: PhpMap) {
    "key" in options ==> options["key"].Null? || options["key"].Str?
  }

  /** The options array passed to `read` and `write`. */
  type Options = o: PhpMap | KeyIsString(o) witness map[]

  /** The configuration the constructor stores: it throws when no secret is set
      (an `isset` test, so only an absent or null secret is refused), and otherwise
      lays the supplied configuration over the defaults. */
  function Configure(config: PhpMap): (r: Result<PhpMap, Error>)
    ensures r.Failure? <==> !IsSet(config, "secret")
    ensures r.Failure? ==> r.error == ConfigError(MissingSecret)
    ensures r.Success? ==> r.value.Keys == config.Keys + Defaults.Keys
    ensures r.Success? ==> forall k :: k in config ==> r.value[k] == config[k]
    ensures r.Success? ==> r.value["algorithm"] == if "algorithm" in config then config["algorithm"] else DefaultAlgorithm
  {
    if !IsSet(config, "secret") then Failure(ConfigError(MissingSecret))
    else Success(Union(config, Defaults))
  }

  /** `isset($options['key']) ? $options['key'] : null` in `read`. */
  function KeyOption(options: Options): Value {
    if IsSet(options, "key") then options["key"] else Null
  }

  /** The payload key `write` stores under, `$options['key']`. PHP turns a missing
      or null array key into the empty string. */
  function WriteKey(options: Options): string {
    if IsSet(options, "key") then options["key"].s else ""
  }

  class Jwt {
    /** The codec class the strategy calls, `$_classes['jwt']`. */
    const codec: Codec
    /** The merged configuration, `$_config`. */
    const config: PhpMap

    /** What every constructed strategy satisfies. */
    predicate Valid() {
      IsSet(config, "secret") && "algorithm" in config
    }

    constructor (config: PhpMap, codec: Codec)
      requires IsSet(config, "secret")
      ensures Valid()
      ensures this.codec == codec
      ensures Configure(config) == Success(this.config)
    {
      this.codec := codec;
      this.config := Union(config, Defaults);
    }

    /** `new Jwt($config)`, with the exception as a failure. */
    static method Create(config: PhpMap, codec: Codec) returns (r: Result<Jwt, Error>)
      ensures r.Failure? <==> !IsSet(config, "secret")
      ensures r.Failure? ==> r.error == ConfigError(MissingSecret)
      ensures r.Success? ==> fresh(r.value) && r.value.Valid() && r.value.codec == codec
      ensures r.Success? ==> Configure(config) == Success(r.value.config)
    {
      if !IsSet(config, "secret") {
        r := Failure(ConfigError(MissingSecret));
      } else {
        var j := new Jwt(config, codec);
        r := Success(j);
      }
    }

    function Secret(): (secret: Value)
      requires Valid()
    {
      config["secret"]
    }

    function Algorithm(): (algorithm: Value)
      requires Valid()
    {
      config["algorithm"]
    }

    /** `_encode`: the payload and the secret are all the codec is given. */
    function Encode(payload: PhpMap): (token: string)
      requires Valid()
      ensures token == codec.encode(payload, config["secret"])
    {
      codec.encode(payload, Secret())
    }

    /** `_decode`: the codec verifies with the configured secret and accepts the
        configured algorithm and no other; what it throws is not caught. */
    function Decode(token: Value): (r: Result<PhpMap, Error>)
      requires Valid()
      ensures r.Success? <==> codec.decode(token, config["secret"], [config["algorithm"]]).Success?
      ensures r.Success? ==> r.value == codec.decode(token, config["secret"], [config["algorithm"]]).value
      ensures r.Failure? ==> r.error == DecodeError(codec.decode(token, config["secret"], [config["algorithm"]]).error)
    {
      match codec.decode(token, Secret(), [Algorithm()])
      case Success(p) => Success(p)
      case Failure(m) => Failure(DecodeError(m))
    }

    /** `read`: one key's value when the key option is truthy, else the whole
        payload. A key stored as null reads like a missing key, and a decode
        failure reaches the caller unchanged. */
    function Read(token: Value, options: Options): (r: Result<Value, Error>)
      requires Valid()
      ensures r.Failure? <==> Decode(token).Failure?
      ensures r.Failure? ==> r.error == Decode(token).error
      ensures r.Success? && !Truthy(KeyOption(options)) ==> r.value == Arr(Decode(token).value)
      ensures r.Success? && Truthy(KeyOption(options)) ==>
        (r.value == Null <==> !IsSet(Decode(token).value, KeyOption(options).s))
      ensures r.Success? && Truthy(KeyOption(options)) && IsSet(Decode(token).value, KeyOption(options).s) ==>
        r.value == Decode(token).value[KeyOption(options).s]
    {
      var payload :- Decode(token);
      var key := KeyOption(options);
      if Truthy(key) then
        Success(if IsSet(payload, key.s) then payload[key.s] else Null)
      else
        Success(Arr(payload))
    }

    /** The payload `write` encodes: the whole payload read from a null token
        (the key option forced to null), falsy replaced by an empty array, with
        the written entry laid over it. */
    function WrittenPayload(data: Value, options: Options): (r: Result<PhpMap, Error>)
      requires Valid()
      ensures r.Failure? <==> Decode(Null).Failure?
      ensures r.Failure? ==> r.error == Decode(Null).error
      ensures r.Success? ==> r.value.Keys == Decode(Null).value.Keys + {WriteKey(options)}
      ensures r.Success? ==> r.value[WriteKey(options)] == data
      ensures r.Success? ==> forall k :: k in Decode(Null).value && k != WriteKey(options) ==>
        r.value[k] == Decode(Null).value[k]
    {
      var wholePayload: Options := Union(map["key" := Null], options);
      assert !Truthy(KeyOption(wholePayload));
      var existing :- Read(Null, wholePayload);
      assert existing == Arr(Decode(Null).value);
      match if Truthy(existing) then existing else Arr(map[])
      case Arr(payload) => Success(Union(map[WriteKey(options) := data], payload))
      case _ => assert false; Failure(DecodeError(""))
    }

    /** `write`: the token of the merged payload. The merged payload always holds
        the written key, so the empty-payload branch never returns null. */
    function Write(data: Value, options: Options): (r: Result<Value, Error>)
      requires Valid()
      ensures r.Failure? <==> WrittenPayload(data, options).Failure?
      ensures r.Failure? ==> r.error == WrittenPayload(data, options).error
      ensures r.Success? ==> r.value == Str(Encode(WrittenPayload(data, options).value))
    {
      var payload :- WrittenPayload(data, options);
      if !Truthy(Arr(payload)) then Success(Null) else Success(Str(Encode(payload)))
    }
  }
}
