# Jwt session-storage strategy

A model of the `Jwt` strategy of the li3_jwt plugin for the Lithium framework.
The strategy keeps a session's key/value payload inside one signed JSON Web
Token. `read` decodes a token and returns one key's value or the whole payload;
`write` lays one key/value pair over a payload and encodes the result into a new
token. Signing and verification belong to an external `\JWT` class, which the
model receives as a `Codec`: a pair of arbitrary functions. Every property is
therefore proved for any codec, and the one property that needs the codec to
invert itself (`RoundTrips`) is an explicit assumption of the lemmas that use it.

Files:

- `wrappers.dfy`: the `Result` type used for the exceptions.
- `php_array.dfy`: PHP values, `isset`, truthiness and the array union `+`.
- `codec.dfy`: the codec interface and the round-trip assumption.
- `jwt.dfy`: the configuration and the `Jwt` class with `read`, `write`,
  `_encode` and `_decode`.
- `properties.dfy`: lemmas relating several calls.

The class has two immutable fields: `codec`, which stands for the `jwt` entry of
`_classes`, and `config`, the merged configuration the constructor stores. The
constructor requires a secret. `Jwt.Create` models `new Jwt($config)` and turns
the `ConfigException` into a failure. `read` and `write` are functions of their
arguments and these two fields.

Several behaviours differ from what a reader of the strategy might expect:

- A decode failure is not caught. `read` returns it to the caller, and it is
  never replaced by an empty payload.
- `write` does not read the previous token. It decodes a null token, so the
  entries it keeps are those the codec yields for null. When the codec rejects
  null, every `write` fails.
- The secret check is `isset`, so an empty-string secret is accepted.
- `_encode` gives the codec only the payload and the secret. The configured
  algorithm is used only when decoding.
- Under a truthy key, a key stored with a null value reads like a missing key.
- The empty-payload branch of `write` is dead: the merged payload always holds
  the written key.

## Model

| member | source | states |
|---|---|---|
| `PhpArray.Union` | extensions/strategy/storage/session/Jwt.php:63-64 | the array `+` keeps every left entry and adds a right entry only for a key the left lacks; the result has exactly the keys of both |
| `JwtSession.Configure` | extensions/strategy/storage/session/Jwt.php:25-36 | configuration fails with the "requires a secret key" error exactly when `secret` is absent or null; otherwise supplied entries are kept unchanged, `algorithm` is added only as the HS256 default, and no other key appears |
| `JwtSession.Jwt.constructor` | extensions/strategy/storage/session/Jwt.php:32-36 | a strategy built from a configuration with a secret stores the configuration `Configure` computes and the given codec |
| `JwtSession.Jwt.Create` | extensions/strategy/storage/session/Jwt.php:32-36 | construction fails with the configuration error exactly when no secret is set, and otherwise yields a fresh valid strategy holding the merged configuration |
| `JwtSession.Jwt.Encode` | extensions/strategy/storage/session/Jwt.php:75-79 | the codec receives exactly the payload and the configured secret, and no algorithm; its partner is `EncodeIgnoresAlgorithm` |
| `JwtSession.Jwt.Decode` | extensions/strategy/storage/session/Jwt.php:87-91 | the codec is called with the token, the configured secret and the one-element list of the configured algorithm; its result is passed on and its exception becomes a decode error |
| `JwtSession.Jwt.Read` | extensions/strategy/storage/session/Jwt.php:46-53 | `read` fails exactly when decoding fails, with the same error; with a falsy key it returns the whole payload; with a truthy key it returns null exactly when the key is missing or stored as null, and the stored value otherwise |
| `JwtSession.Jwt.WrittenPayload` | extensions/strategy/storage/session/Jwt.php:62-64 | the payload `write` builds fails exactly when decoding the null token fails; otherwise it holds the keys of the null token's payload plus the written key, maps the written key to the data, and keeps every other entry |
| `JwtSession.Jwt.Write` | extensions/strategy/storage/session/Jwt.php:62-67 | `write` fails exactly when building the payload fails, with the same error (the model's encode never throws), and otherwise always returns the encoded token of the merged payload, never null |
| `JwtSessionProperties.OnlySecretDefaultsAlgorithm` | extensions/strategy/storage/session/Jwt.php:25-36 | a configuration holding only a non-null secret, even `""`, becomes exactly that secret with algorithm HS256 |
| `JwtSessionProperties.FalsyKeyReadsWholePayload` | extensions/strategy/storage/session/Jwt.php:49-52 | a key option that is absent, null, `""` or `"0"` reads like no options at all and yields the whole decoded payload |
| `JwtSessionProperties.StoredNullReadsAsMissing` | extensions/strategy/storage/session/Jwt.php:51 | two payloads differing only in a key stored as null versus absent read the same under every truthy key |
| `JwtSessionProperties.WrittenPayloadSize` | extensions/strategy/storage/session/Jwt.php:64 | the merged payload has one entry more than the null token's payload when the written key is new, and as many otherwise |
| `JwtSessionProperties.WriteFailsWhenNullTokenRejected` | extensions/strategy/storage/session/Jwt.php:63 | when the codec rejects a null token, every `write` fails with that codec's exception |
| `JwtSessionProperties.WriteDependsOnlyOnKey` | extensions/strategy/storage/session/Jwt.php:62-64 | two option arrays naming the same key give the same `write` result: no other option is consulted |
| `JwtSessionProperties.WriteWithoutKeyIsEmptyKey` | extensions/strategy/storage/session/Jwt.php:64 | a `write` with no key option, or a null one, gives the same result as one under the key `""` |
| `JwtSessionProperties.WriteIgnoresTokenOption` | extensions/strategy/storage/session/Jwt.php:63 | a `token` option has no influence on what `write` returns |
| `JwtSessionProperties.EncodeIgnoresAlgorithm` | extensions/strategy/storage/session/Jwt.php:75-79 | two strategies with the same codec and secret encode every payload to the same token, whatever their algorithms |
| `JwtSessionProperties.ReadAfterWriteWrittenKey` | extensions/strategy/storage/session/Jwt.php:46-67 | assuming the codec round-trips, reading the written key from the token `write` returned gives the written value |
| `JwtSessionProperties.ReadAfterWriteOtherKey` | extensions/strategy/storage/session/Jwt.php:46-67 | assuming the codec round-trips, every other truthy key of that token reads as it reads from the null token |

## Left out

- The `\JWT` codec itself (HMAC and RSA signing, base64url, JSON, segment parsing): it is a foreign library, so it is a parameter of the strategy, and its round trip is the assumption `RoundTrips`, not a proved fact.
- The `lithium\core\Object` base class and the `_classes` injection: the constructor stores the merged array as `config`, and the codec is given to it directly.
- The `stdClass`-to-array cast in `read`: the codec returns the payload as an array.
- PHP array-key coercion: keys are strings, and the `key` option may only hold a string or null (the `Options` type). Integer, boolean and array keys are not modelled. The one coercion `write` depends on, a missing or null key becoming `""`, is modelled.
- Floating-point values and objects are not among the modelled PHP values.
- The session host, the cookie or header that carries the token, and the persistence of the token `write` returns: these are I/O outside the strategy.
- The PHP notice raised when `write` is called without a `key` option.
- The order of array entries: PHP arrays are ordered, and `write` puts the written key first, before the entries it keeps; the token the codec produces can depend on that order. The model gives the codec an unordered map, so two payloads with the same entries in a different order yield the same token in the model.
- Exceptions thrown by the codec while encoding (for example data it cannot serialise) escape `_encode` and `write`. The model's `encode` is total, so `Write` fails only when decoding the null token fails.
- PHP byte strings are modelled as Dafny `string` (sequences of characters), with no encoding.
