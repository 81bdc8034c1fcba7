/**
 * The token codec the strategy delegates to. Signing, base64url and JSON are not
 * part of this model: the codec is a pair of arbitrary functions supplied by the
 * caller, so every property proved below holds for any codec.
 */
module JwtCodec {
  import opened Wrappers
  import opened PhpArray

  /** `encode(payload, secret)` signs a payload into a token string;
      `decode(token, secret, allowedAlgorithms)` verifies a token and returns its
      payload, or fails with the message of the exception it throws. */
  datatype Codec = Codec(
    encode: (PhpMap, Value) -> string,
    decode: (Value, Value, seq<Value>) -> Result<PhpMap, string>)

  /** An assumption about a codec, never a proved fact: a token it produced with
      `secret` decodes back to the same payload when `algorithm` is the only
      algorithm allowed. */
  ghost predicate RoundTrips(codec: Codec, secret: Value, algorithm: Value) {
    forall p: PhpMap :: codec.decode(Str(codec.encode(p, secret)), secret, [algorithm]) == Success(p)
  }
}
