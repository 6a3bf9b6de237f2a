/** The JSON text columns (tags, models, parameters, score) and the legacy
    snapshot blob. Stored text is either the serialization of a value or text
    that does not parse as one; the serializer itself is not modelled. */
module Codec {
  import opened Types

  datatype Json<T> = Encoded(value: T) | Malformed(text: string)

  /** serde_json::to_string; it cannot fail on these records. */
  function Encode<T>(x: T): (j: Json<T>)
    ensures Decode(j) == Some(x)
  {
    Encoded(x)
  }

  /** serde_json::from_str, which fails on text that does not parse. */
  function Decode<T>(j: Json<T>): (r: Option<T>)
    ensures r.Some? <==> j.Encoded?
  {
    match j
    case Encoded(x) => Some(x)
    case Malformed(_) => None
  }

  /** `from_str(..).unwrap_or(default)`: a failed decode yields the default. */
  function DecodeOr<T>(j: Json<T>, default: T): (x: T)
    ensures Decode(j).None? ==> x == default
    ensures Decode(j).Some? ==> x == Decode(j).value
  {
    match Decode(j)
    case Some(v) => v
    case None => default
  }

  /** The parameter set a run is listed with when its stored parameters do not
      decode: temperature 0.7, top_p 1.0, max_tokens 1024, no penalties. */
  function DefaultParameters(): ModelParameters {
    ModelParameters(0.7, 1.0, 1024, 0.0, 0.0)
  }
}
