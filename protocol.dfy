/**
  The values exchanged with the server: JSON-like payloads, the operation
  variables a subscription carries, and the notices the client sends
  (`authenticate`, `subscribe`, `unsubscribe`).
 */
module Protocol {

  import opened Wrappers

  /** A JSON value as it arrives from, or is sent over, the transport. */
  datatype Json =
    | JNull
    | JBool(b: bool)
    | JNum(n: int)
    | JStr(s: string)
    | JArr(items: seq<Json>)
    | JObj(fields: map<string, Json>)

  /** A JSON object: the shape of an inbound update and of a delivered payload. */
  type Payload = map<string, Json>

  /** The variables of a GraphQL operation. */
  type Variables = map<string, Json>

  /** The field of an inbound update that names its subscription. */
  const ID_FIELD := "id"

  /** A one-way message sent to the server. */
  datatype Notice =
    | Authenticate(token: string)
    | Subscribe(id: nat, query: string, variables: Variables)
    | Unsubscribe(id: nat)

  /**
    JavaScript truthiness of the optional credential token: an absent
    token and the empty string are both falsy.
   */
  predicate Truthy(token: Option<string>) {
    token.Some? && token.value != ""
  }

  /**
    The rest of an inbound update once its `id` field is taken out
    (the object rest pattern `{ id, ...payload }`).
   */
  function Strip(update: Payload): (payload: Payload)
    ensures ID_FIELD !in payload
    ensures payload.Keys == update.Keys - {ID_FIELD}
    ensures forall f :: f in payload ==> payload[f] == update[f]
  {
    update - {ID_FIELD}
  }
}
