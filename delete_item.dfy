/** lambda/delete_inventory_item: remove one record by (item_id, location_id). */
module DeleteItem {
  import opened Json
  import opened Fallback
  import opened Inventory
  import opened Gateway

  /** location_id as the body carries it: a truthy string that parses to a
      dict supplies `.get("location_id")`; any other body supplies None. */
  function BodyLocation(event: Event, loads: string -> Option<Json>): Json {
    Get(ParsedObject(Get(event, "body"), loads), "location_id")
  }

  /** The inputs on which the handler raises nothing uncaught: `.get` is
      called on the path parameters always, and on the query string
      parameters only when the body gave no location_id. */
  predicate Admissible(event: Event, loads: string -> Option<Json>) {
    && ParamsShaped(event, "pathParameters")
    && (BodyLocation(event, loads) == JNull ==> ParamsShaped(event, "queryStringParameters"))
  }

  /** item_id comes from the path `/item/{id}` and from nowhere else. */
  function ItemId(event: Event): Json {
    Param(event, "pathParameters", "id")
  }

  /** location_id: the first of body, query string and top level that is not None. */
  function LocationId(event: Event, loads: string -> Option<Json>): Json {
    FirstPresent([BodyLocation(event, loads), Param(event, "queryStringParameters", "location_id"),
                  Get(event, "location_id")])
  }

  /** The response and the table afterwards. `storeFails` says whether
      delete_item raises. */
  function Remove(event: Event, loads: string -> Option<Json>, storeFails: bool, store: Store): Outcome {
    var itemId, locationId := ItemId(event), LocationId(event, loads);
    if !Truthy(itemId) then Outcome(ErrorResponse(400, ItemIdRequired), store)
    else if locationId == JNull then Outcome(ErrorResponse(400, LocationRequired), store)
    else
      match ParseInt(locationId)
      case None => Outcome(ErrorResponse(400, LocationNotInteger), store)
      case Some(loc) =>
        // A key of the wrong type is refused by the table: 500.
        if !itemId.JStr? || storeFails then Outcome(ErrorResponse(500, InternalServerError), store)
        else Outcome(MessageResponse(200, ItemDeleted, itemId), store - {(itemId.s, loc)})
  }

  /** Step 2 of the handler as written: body, then the query string while
      still None, then the top-level key while still None. */
  method ReadLocation(event: Event, loads: string -> Option<Json>) returns (locationId: Json)
    requires Admissible(event, loads)
    ensures locationId == LocationId(event, loads)
  {
    FirstPresentOfThree(BodyLocation(event, loads), Param(event, "queryStringParameters", "location_id"),
                        Get(event, "location_id"));
    locationId := JNull;

    // json.loads raises on a non-string, `.get` on a non-dict; the
    // except clause skips both.
    var raw := Get(event, "body");
    if Truthy(raw) && raw.JStr? {
      match loads(raw.s) {
        case Some(JObj(body)) =>
          locationId := Get(body, "location_id");
        case _ =>
      }
    }

    if locationId == JNull {
      var qs := Params(event, "queryStringParameters");
      locationId := Get(qs, "location_id");
    }

    if locationId == JNull {
      locationId := Get(event, "location_id");
    }
  }

  /** The handler. */
  method DeleteInventoryItem(table: Table, event: Event, loads: string -> Option<Json>, storeFails: bool)
    returns (resp: Response)
    requires table.Valid() && Admissible(event, loads)
    modifies table
    ensures table.Valid()
    ensures Outcome(resp, table.items) == Remove(event, loads, storeFails, old(table.items))
  {
    var pathParams := Params(event, "pathParameters");
    var itemId := Get(pathParams, "id");
    var locationId := ReadLocation(event, loads);

    if !Truthy(itemId) {
      return ErrorResponse(400, ItemIdRequired);
    }
    if locationId == JNull {
      return ErrorResponse(400, LocationRequired);
    }
    var loc := ParseInt(locationId);
    if loc.None? {
      return ErrorResponse(400, LocationNotInteger);
    }
    if !itemId.JStr? || storeFails {
      return ErrorResponse(500, InternalServerError);
    }
    table.DeleteItem((itemId.s, loc.value));
    resp := MessageResponse(200, ItemDeleted, itemId);
  }

  /** location_id is the body's value unless that is None, then the query
      string's unless that is None, then the top-level value. A falsy but
      present value such as "" or 0 is kept, unlike the `or` chains of the
      other handlers. */
  lemma LocationPrecedence(event: Event, loads: string -> Option<Json>)
    ensures var b, q, t := BodyLocation(event, loads), Param(event, "queryStringParameters", "location_id"),
                           Get(event, "location_id");
      LocationId(event, loads) == if b != JNull then b else if q != JNull then q else t
  {
    FirstPresentOfThree(BodyLocation(event, loads), Param(event, "queryStringParameters", "location_id"),
                        Get(event, "location_id"));
  }

  /** The validations run in order, each failure has its own message and
      none of them touches the table. */
  lemma ValidationOrder(event: Event, loads: string -> Option<Json>, storeFails: bool, store: Store)
    ensures var o, itemId, locationId := Remove(event, loads, storeFails, store), ItemId(event), LocationId(event, loads);
      && (!Truthy(itemId) ==> o.response == ErrorResponse(400, ItemIdRequired))
      && (Truthy(itemId) && locationId == JNull ==> o.response == ErrorResponse(400, LocationRequired))
      && (Truthy(itemId) && locationId != JNull && ParseInt(locationId).None? ==>
            o.response == ErrorResponse(400, LocationNotInteger))
      && (o.response.statusCode != 200 ==> o.store == store)
      && (o.response.statusCode in {200, 400, 500})
  {
  }

  /** Only the path can name the item: body, query string and top-level
      keys never supply it, so without a truthy path id every event with
      that path id is answered 400 "item_id is required", and nothing is
      removed. */
  lemma ItemIdOnlyFromPath(event: Event, loads: string -> Option<Json>, storeFails: bool, store: Store)
    requires !Truthy(ItemId(event))
    ensures forall e: Event :: Param(e, "pathParameters", "id") == Param(event, "pathParameters", "id") ==>
      Remove(e, loads, storeFails, store) == Outcome(ErrorResponse(400, ItemIdRequired), store)
  {
  }

  /** A well-formed request removes exactly its key and answers 200
      "Item deleted" whether or not the key was there. */
  lemma DeleteRemovesKey(event: Event, loads: string -> Option<Json>, store: Store, id: string, loc: int)
    requires ItemId(event) == JStr(id) && id != "" && ParseInt(LocationId(event, loads)) == Some(loc)
    ensures var o := Remove(event, loads, false, store);
      && o.response == MessageResponse(200, ItemDeleted, JStr(id))
      && (id, loc) !in o.store
      && (forall k :: k != (id, loc) ==> (k in o.store <==> k in store))
      && (forall k :: k in o.store ==> o.store[k] == store[k])
  {
  }

  /** Deleting twice is deleting once: the second call answers the same and
      leaves the table as the first left it. */
  lemma RemoveIdempotent(event: Event, loads: string -> Option<Json>, store: Store)
    ensures var once := Remove(event, loads, false, store);
      Remove(event, loads, false, once.store) == once
  {
  }

  /** Deletion preserves that every record sits under its own key. */
  lemma RemoveKeepsConsistent(event: Event, loads: string -> Option<Json>, storeFails: bool, store: Store)
    requires Consistent(store)
    ensures Consistent(Remove(event, loads, storeFails, store).store)
  {
  }
}
