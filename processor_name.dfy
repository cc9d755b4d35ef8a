/** `EventProcessorName`: an immutable string wrapper naming an event processor. */
module ProcessorNames {
  import opened Wrappers
  import opened JsonValues

  datatype ProcessorName = ProcessorName(name: string)

  /** `init(name:)`. */
  function FromName(name: string): (p: ProcessorName)
    ensures p.name == name
  {
    ProcessorName(name)
  }

  /** `init(stringLiteral:)`. */
  function FromStringLiteral(literal: string): (p: ProcessorName)
    ensures p.name == literal
  {
    ProcessorName(literal)
  }

  /** `init(_:)` for any `RawRepresentable` whose raw value is a `String`. */
  function FromRawValue<R>(raw: R, rawValue: R -> string): (p: ProcessorName)
    ensures p.name == rawValue(raw)
  {
    ProcessorName(rawValue(raw))
  }

  /** `description` and `debugDescription` (both are the stored string). */
  function Description(p: ProcessorName): (s: string)
    ensures FromName(s) == p
  {
    p.name
  }

  function DebugDescription(p: ProcessorName): (s: string)
    ensures s == Description(p)
  {
    p.name
  }

  /** `encode(to:)`: a single-value container holding the string. */
  function Encode(p: ProcessorName): (j: Json)
    ensures j.JString? && j.s == p.name
  {
    JString(p.name)
  }

  /** `init(from:)`: the single value must be a string. */
  function Decode(j: Json): (r: Result<ProcessorName, DecodingError>)
    ensures r.Success? <==> j.JString?
    ensures r.Success? ==> Encode(r.value) == j
    ensures j == JNull ==> r == Failure(ValueNotFound)
  {
    match DecodeString(j)
    case Success(s) => Success(ProcessorName(s))
    case Failure(e) => Failure(e)
  }

  /** Synthesised `Equatable`: two names are equal exactly when their strings are. */
  lemma EqualityByName(a: ProcessorName, b: ProcessorName)
    ensures a == b <==> a.name == b.name
  {
  }

  /** The three initialisers agree, and the display form gives back the string. */
  lemma InitialisersAgree<R>(s: string, raw: R, rawValue: R -> string)
    requires rawValue(raw) == s
    ensures FromName(s) == FromStringLiteral(s) == FromRawValue(raw, rawValue)
    ensures Description(FromName(s)) == s && DebugDescription(FromName(s)) == s
  {
  }

  /** Encoding then decoding gives back an equal name, and a decoded name re-encodes to its source. */
  lemma CodableRoundTrip(p: ProcessorName, j: Json)
    ensures Decode(Encode(p)) == Success(p)
    ensures Decode(j).Success? ==> Encode(Decode(j).value) == j
  {
  }
}
