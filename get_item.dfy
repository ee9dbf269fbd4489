/** lambda/get_inventory_item: look one record up by (item_id, location_id). */
module GetItem {
  import opened Json
  import opened Fallback
  import opened Transport
  import opened Inventory
  import opened Gateway

  /** The inputs on which the handler raises nothing uncaught: path and query
      parameters are absent, falsy or dicts, so `.get` can be called on them. */
  predicate Admissible(event: Event) {
    ParamsShaped(event, "pathParameters") && ParamsShaped(event, "queryStringParameters")
  }

  /** The body as stage 3 sees it: a truthy string that parses to a dict, else `{}`. */
  function Body(event: Event, loads: string -> Option<Json>): map<string, Json> {
    ParsedObject(Get(event, "body"), loads)
  }

  /** item_id is `path.id or body.item_id or event.item_id`; location_id is
      `query.location_id or body.location_id or event.location_id`. */
  function ResolveKey(event: Event, loads: string -> Option<Json>): (Json, Json) {
    var body := Body(event, loads);
    (FirstTruthy([Param(event, "pathParameters", "id"), Get(body, "item_id"), Get(event, "item_id")]),
     FirstTruthy([Param(event, "queryStringParameters", "location_id"), Get(body, "location_id"), Get(event, "location_id")]))
  }

  /** The response for the table `store`; the table is only read.
      `toFloat` is `float(Decimal)`, `storeFails` says whether get_item raises. */
  function Retrieve(
    event: Event, loads: string -> Option<Json>, toFloat: Decimal -> Float,
    storeFails: bool, store: Store): Response
  {
    var (itemId, locationId) := ResolveKey(event, loads);
    if !Truthy(itemId) || locationId == JNull then
      ErrorResponse(400, KeyRequired)
    else
      match ParseInt(locationId)
      case None => ErrorResponse(500, InternalServerError)
      case Some(loc) =>
        if !itemId.JStr? || storeFails then ErrorResponse(500, InternalServerError)
        else if (itemId.s, loc) !in store then ErrorResponse(404, ItemNotFound)
        else Response(200, DecimalToFloat(ItemJson(store[(itemId.s, loc)]), toFloat))
  }

  /** Stages 1 to 4 of the handler as written: path, query string, the body
      (consulted only while a field is still falsy, and skipped when it does
      not parse to a dict), then the top-level keys. */
  method ReadKey(event: Event, loads: string -> Option<Json>) returns (itemId: Json, locationId: Json)
    requires Admissible(event)
    ensures (itemId, locationId) == ResolveKey(event, loads)
  {
    FirstTruthyOrder(event, loads);

    itemId, locationId := JNull, JNull;

    // 1) Path parameter /item/{id}.
    var pathParams := Params(event, "pathParameters");
    itemId := Get(pathParams, "id");

    // 2) Query string ?location_id=.
    var queryParams := Params(event, "queryStringParameters");
    if queryParams != map[] {
      locationId := Get(queryParams, "location_id");
    }

    // 3) JSON body: json.loads raises on a non-string and `.get` on a
    //    non-dict; the except clause skips both.
    var raw := Get(event, "body");
    if (!Truthy(itemId) || !Truthy(locationId)) && Truthy(raw) {
      if raw.JStr? {
        match loads(raw.s) {
          case Some(JObj(b)) =>
            itemId := if Truthy(itemId) then itemId else Get(b, "item_id");
            locationId := if Truthy(locationId) then locationId else Get(b, "location_id");
          case _ =>
        }
      }
    }

    // 4) Top-level keys.
    if !Truthy(itemId) {
      itemId := Get(event, "item_id");
    }
    if !Truthy(locationId) {
      locationId := Get(event, "location_id");
    }
  }

  /** The handler. It has no modifies clause: the table is never changed. */
  method GetInventoryItem(
    table: Table, event: Event, loads: string -> Option<Json>, toFloat: Decimal -> Float,
    storeFails: bool) returns (resp: Response)
    requires Admissible(event)
    ensures resp == Retrieve(event, loads, toFloat, storeFails, table.items)
  {
    var itemId, locationId := ReadKey(event, loads);
    if !Truthy(itemId) || locationId == JNull {
      return ErrorResponse(400, KeyRequired);
    }
    // int(location_id) runs inside the try block, so its failure is a 500.
    var loc := ParseInt(locationId);
    if loc.None? {
      return ErrorResponse(500, InternalServerError);
    }
    if !itemId.JStr? || storeFails {
      return ErrorResponse(500, InternalServerError);
    }
    var found := table.GetItem((itemId.s, loc.value));
    if found.None? {
      return ErrorResponse(404, ItemNotFound);
    }
    resp := Response(200, DecimalToFloat(ItemJson(found.value), toFloat));
  }

  /** Each field takes the first truthy value among its three sources, in
      order, and the top-level value when no earlier one is truthy. */
  lemma FirstTruthyOrder(event: Event, loads: string -> Option<Json>)
    ensures var path, query, body := Param(event, "pathParameters", "id"),
                                     Param(event, "queryStringParameters", "location_id"), Body(event, loads);
      var (itemId, locationId) := ResolveKey(event, loads);
      && itemId == (if Truthy(path) then path
                    else if Truthy(Get(body, "item_id")) then Get(body, "item_id")
                    else Get(event, "item_id"))
      && locationId == (if Truthy(query) then query
                        else if Truthy(Get(body, "location_id")) then Get(body, "location_id")
                        else Get(event, "location_id"))
  {
    var body := Body(event, loads);
    FirstTruthyOfThree(Param(event, "pathParameters", "id"), Get(body, "item_id"), Get(event, "item_id"));
    FirstTruthyOfThree(Param(event, "queryStringParameters", "location_id"), Get(body, "location_id"), Get(event, "location_id"));
  }

  /** The body fills only the fields still missing after path and query:
      when both are truthy, the body and the top-level keys are irrelevant,
      and a body that does not parse to a dict is ignored altogether. */
  lemma BodyFillsOnlyMissing(event: Event, loads: string -> Option<Json>)
    ensures var path, query := Param(event, "pathParameters", "id"), Param(event, "queryStringParameters", "location_id");
      && (Truthy(path) && Truthy(query) ==> ResolveKey(event, loads) == (path, query))
      && (Truthy(path) ==> ResolveKey(event, loads).0 == path)
      && (Truthy(query) ==> ResolveKey(event, loads).1 == query)
      && (Body(event, loads) == map[] ==> ResolveKey(event, loads) == ResolveKey(event - {"body"}, loads))
  {
  }

  /** 400 "item_id and location_id are required" exactly when item_id is
      falsy or location_id is None. */
  lemma KeyRequired400(
    event: Event, loads: string -> Option<Json>, toFloat: Decimal -> Float, storeFails: bool, store: Store)
    ensures var (itemId, locationId) := ResolveKey(event, loads);
      (Retrieve(event, loads, toFloat, storeFails, store) == ErrorResponse(400, KeyRequired)) <==>
      (!Truthy(itemId) || locationId == JNull)
  {
  }

  /** A location_id that does not coerce gives 500, not 400. */
  lemma NonIntegerLocationIs500(
    event: Event, loads: string -> Option<Json>, toFloat: Decimal -> Float, storeFails: bool, store: Store)
    requires var (itemId, locationId) := ResolveKey(event, loads);
      Truthy(itemId) && locationId != JNull && ParseInt(locationId).None?
    ensures Retrieve(event, loads, toFloat, storeFails, store) == ErrorResponse(500, InternalServerError)
  {
  }

  /** For a well-formed key the answer is 404 "Item not found" exactly when
      the key is absent, and otherwise 200 with the stored record, its
      Decimals converted to floats. */
  lemma LookupByKey(
    event: Event, loads: string -> Option<Json>, toFloat: Decimal -> Float, store: Store, id: string, loc: int)
    requires var (itemId, locationId) := ResolveKey(event, loads);
      itemId == JStr(id) && id != "" && ParseInt(locationId) == Some(loc)
    ensures var r := Retrieve(event, loads, toFloat, false, store);
      && (r == ErrorResponse(404, ItemNotFound) <==> (id, loc) !in store)
      && ((id, loc) in store ==> r == Response(200, DecimalToFloat(ItemJson(store[(id, loc)]), toFloat)))
  {
  }

  /** The item a 200 carries: the key as stored, and every number (location,
      quantity, price) as the float of the Decimal the table holds. */
  lemma ConvertedItem(r: Record, toFloat: Decimal -> Float)
    ensures var j := DecimalToFloat(ItemJson(r), toFloat);
      && j.JObj?
      && j.fields.Keys == {"item_id", "location_id", "item_name", "item_description", "item_qty_on_hand", "item_price"}
      && j.fields["item_id"] == JStr(r.itemId)
      && j.fields["location_id"] == JFloat(toFloat(IntDecimal(r.locationId)))
      && j.fields["item_qty_on_hand"] == JFloat(toFloat(IntDecimal(r.qtyOnHand)))
      && j.fields["item_price"] == JFloat(toFloat(r.price))
  {
  }
}
