/** The gateway's request envelope and response shape, shared by the handlers. */
module Gateway {
  import opened Json
  import opened Inventory

  /** The event: top-level keys `body`, `pathParameters`,
      `queryStringParameters`, and any fields of a direct invocation. */
  type Event = map<string, Json>

  /** `{statusCode, body}`, with the body before `json.dumps`. */
  datatype Response = Response(statusCode: int, body: Json)

  /** What one invocation returns, with the table as it is afterwards. */
  datatype Outcome = Outcome(response: Response, store: Store)

  const ItemIdRequired: string := "item_id is required"
  const CreateFieldsRequired: string := "location_id, item_name, qty_on_hand and price are required"
  const KeyRequired: string := "item_id and location_id are required"
  const LocationRequired: string := "location_id is required"
  const LocationNotInteger: string := "location_id must be an integer"
  const ItemNotFound: string := "Item not found"
  const InternalServerError: string := "Internal server error"
  const ItemCreated: string := "Item created"
  const ItemDeleted: string := "Item deleted"

  /** `{"error": message}` */
  function ErrorResponse(status: int, message: string): Response {
    Response(status, JObj(map["error" := JStr(message)]))
  }

  /** `{"message": message, "item_id": itemId}` */
  function MessageResponse(status: int, message: string, itemId: Json): Response {
    Response(status, JObj(map["message" := JStr(message), "item_id" := itemId]))
  }

  /** `event.get(name) or {}` can be read with `.get`: the value is falsy or a dict. */
  predicate ParamsShaped(event: Event, name: string) {
    var v := Get(event, name);
    !Truthy(v) || v.JObj?
  }

  /** `event.get(name) or {}` */
  function Params(event: Event, name: string): map<string, Json>
    requires ParamsShaped(event, name)
  {
    var v := Get(event, name);
    if Truthy(v) then v.fields else map[]
  }

  /** `(event.get(name) or {}).get(key)`. Where that would raise, the
      handlers' admissibility predicates exclude the event; None is returned
      there only to keep the function total. */
  function Param(event: Event, name: string, key: string): Json {
    if ParamsShaped(event, name) then Get(Params(event, name), key) else JNull
  }

  /** A truthy string `body` that `json.loads` turns into a dict; `{}` for
      every other body, whose parse or `.get` the handler's except skips. */
  function ParsedObject(raw: Json, loads: string -> Option<Json>): map<string, Json> {
    if raw.JStr? && raw.s != "" then
      match loads(raw.s)
      case Some(JObj(m)) => m
      case _ => map[]
    else map[]
  }
}
