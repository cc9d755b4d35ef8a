/**
 * `EventDispatcher.make(with:)`: serialise a body and present it as a
 * property map, wrapping anything that is not already a string-keyed object
 * under the root key.
 */
module Canonicalizer {
  import opened Wrappers
  import opened JsonValues

  /** The initial value of the process-wide `EventDispatcher.rootKey`. */
  const DefaultRootKey: string := "body"

  /**
   * The serialisation pipeline (`JSONEncoder().encode` followed by
   * `JSONSerialization.jsonObject`): foreign code that either throws (`None`)
   * or yields a JSON value.
   */
  type Serializer<-B> = B -> Option<Json>

  /** The conditional of `make(with:)` on an already serialised value. */
  function Canonical(rootKey: string, json: Json): (props: Properties)
    ensures JObject(props) == json <==> json.JObject?
    ensures !json.JObject? ==> props.Keys == {rootKey} && props[rootKey] == json
  {
    match json
    case JObject(fields) => fields
    case _ => map[rootKey := json]
  }

  /** `make(with:)`: fails exactly when serialisation fails. */
  function Make<B>(serialize: Serializer<B>, rootKey: string, body: B): (r: Option<Properties>)
    ensures r.None? <==> serialize(body).None?
    ensures r.Some? ==> r.value == Canonical(rootKey, serialize(body).value)
  {
    match serialize(body)
    case None => None
    case Some(json) => Some(Canonical(rootKey, json))
  }

  /**
   * Nothing is lost: an object is delivered as it is, and any other value can
   * be read back from under the root key.
   */
  lemma CanonicalRecoverable(rootKey: string, json: Json)
    ensures json.JObject? ==> JObject(Canonical(rootKey, json)) == json
    ensures !json.JObject? ==> rootKey in Canonical(rootKey, json) && Canonical(rootKey, json)[rootKey] == json
  {
  }
}
