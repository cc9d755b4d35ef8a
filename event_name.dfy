/** `EventName`: an immutable string wrapper that identifies a kind of event. */
module EventNames {
  import opened Wrappers
  import opened JsonValues

  datatype EventName = EventName(value: string)

  /** `init(value:)`. */
  function FromValue(value: string): (n: EventName)
    ensures n.value == value
  {
    EventName(value)
  }

  /** `init(stringLiteral:)`: a literal such as `"simple" as EventName`. */
  function FromStringLiteral(literal: string): (n: EventName)
    ensures n.value == literal
  {
    EventName(literal)
  }

  /** `init(_:)` for any `RawRepresentable` whose raw value is a `String`. */
  function FromRawValue<R>(raw: R, rawValue: R -> string): (n: EventName)
    ensures n.value == rawValue(raw)
  {
    EventName(rawValue(raw))
  }

  /** `description` and `debugDescription` (both are the stored string). */
  function Description(n: EventName): (s: string)
    ensures FromValue(s) == n
  {
    n.value
  }

  function DebugDescription(n: EventName): (s: string)
    ensures s == Description(n)
  {
    n.value
  }

  /** `encode(to:)`: a single-value container holding the string. */
  function Encode(n: EventName): (j: Json)
    ensures j.JString? && j.s == n.value
  {
    JString(n.value)
  }

  /** `init(from:)`: the single value must be a string. */
  function Decode(j: Json): (r: Result<EventName, DecodingError>)
    ensures r.Success? <==> j.JString?
    ensures r.Success? ==> Encode(r.value) == j
    ensures j == JNull ==> r == Failure(ValueNotFound)
  {
    match DecodeString(j)
    case Success(s) => Success(EventName(s))
    case Failure(e) => Failure(e)
  }

  /**
   * The synthesised `Equatable` and `Hashable` conformances: equality is
   * decided by the stored string alone, and the hasher sees that string only,
   * so equal names hash equally.
   */
  lemma EqualityByValue(a: EventName, b: EventName, hasher: string -> int)
    ensures a == b <==> a.value == b.value
    ensures a == b ==> hasher(a.value) == hasher(b.value)
  {
  }

  /** The three initialisers agree, and the display form gives back the string. */
  lemma InitialisersAgree<R>(s: string, raw: R, rawValue: R -> string)
    requires rawValue(raw) == s
    ensures FromValue(s) == FromStringLiteral(s) == FromRawValue(raw, rawValue)
    ensures Description(FromValue(s)) == s && DebugDescription(FromValue(s)) == s
  {
  }

  /** Encoding then decoding gives back an equal name, and a decoded name re-encodes to its source. */
  lemma CodableRoundTrip(n: EventName, j: Json)
    ensures Decode(Encode(n)) == Success(n)
    ensures Decode(j).Success? ==> Encode(Decode(j).value) == j
  {
  }
}
