/** lambda/add_inventory_item: validate a create request and upsert one record. */
module AddItem {
  import opened Json
  import opened Fallback
  import opened Inventory
  import opened Gateway

  /** The inputs on which the handler raises nothing uncaught: a string body
      that parses at all parses to a dict (otherwise `body.get` raises
      outside the try block). */
  predicate Admissible(event: Event, loads: string -> Option<Json>) {
    var raw := Get(event, "body");
    raw.JStr? && loads(raw.s).Some? ==> loads(raw.s).value.JObj?
  }

  /** The body the fields are read from: a string body parsed (`{}` if that
      fails), a dict body as it is, `{}` for anything else. */
  function Body(event: Event, loads: string -> Option<Json>): map<string, Json> {
    var raw := Get(event, "body");
    if raw.JStr? then
      match loads(raw.s)
      case Some(JObj(m)) => m
      case _ => map[]
    else if raw.JObj? then raw.fields
    else map[]
  }

  datatype Fields = Fields(
    itemId: Json,
    locationId: Json,
    itemName: Json,
    itemDescription: Json,
    qtyOnHand: Json,
    price: Json)

  /** Each field from the body, else from the top level: item_id, item_name
      and item_description by `or`, the numeric fields by "is not None". */
  function Resolve(event: Event, loads: string -> Option<Json>): Fields {
    var body := Body(event, loads);
    Fields(
      FirstTruthy([Get(body, "item_id"), Get(event, "item_id")]),
      FirstPresent([Get(body, "location_id"), Get(event, "location_id")]),
      FirstTruthy([Get(body, "item_name"), Get(event, "item_name")]),
      FirstTruthy([Get(body, "item_description"), Get(event, "item_description")]),
      FirstPresent([Get(body, "qty_on_hand"), Get(event, "qty_on_hand")]),
      FirstPresent([Get(body, "price"), Get(event, "price")]))
  }

  /** `item_description or ""` */
  function Description(f: Fields): Json {
    if Truthy(f.itemDescription) then f.itemDescription else JStr("")
  }

  /** One invocation against the table `store`. `decimalOf` is
      `Decimal(str(price))` (None where it raises); `storeFails` says whether
      put_item raises. */
  function Create(
    event: Event, loads: string -> Option<Json>, decimalOf: Json -> Option<Decimal>,
    storeFails: bool, store: Store): Outcome
  {
    Validate(Resolve(event, loads), decimalOf, storeFails, store)
  }

  /** Validation, coercion and the write, once the fields are resolved. */
  function Validate(f: Fields, decimalOf: Json -> Option<Decimal>, storeFails: bool, store: Store): Outcome {
    if !Truthy(f.itemId) then
      Outcome(ErrorResponse(400, ItemIdRequired), store)
    else if f.locationId == JNull || f.itemName == JNull || f.qtyOnHand == JNull || f.price == JNull then
      Outcome(ErrorResponse(400, CreateFieldsRequired), store)
    else
      var loc, qty, price := ParseInt(f.locationId), ParseInt(f.qtyOnHand), decimalOf(f.price);
      if loc.None? || qty.None? || price.None? then
        Outcome(ErrorResponse(500, InternalServerError), store)
      else if !f.itemId.JStr? || !Storable(f.itemName) || !Storable(Description(f)) || storeFails then
        Outcome(ErrorResponse(500, InternalServerError), store)
      else
        var rec := Record(f.itemId.s, loc.value, f.itemName, Description(f), qty.value, price.value);
        Outcome(MessageResponse(201, ItemCreated, f.itemId), store[rec.Key() := rec])
  }

  /** Steps 1 and 2 of the handler: read the body, then each field from
      the body or the top level, rebinding as the source does. */
  method ReadFields(event: Event, loads: string -> Option<Json>) returns (f: Fields)
    ensures f == Resolve(event, loads)
  {
    TruthyVersusPresent(event, loads);
    var body: map<string, Json> := map[];
    var bodyStr := Get(event, "body");
    if bodyStr.JStr? {
      match loads(bodyStr.s) {
        case Some(JObj(m)) => body := m;
        case _ => body := map[];
      }
    } else if bodyStr.JObj? {
      body := bodyStr.fields;
    }
    var itemId := if Truthy(Get(body, "item_id")) then Get(body, "item_id") else Get(event, "item_id");
    var locationId := if Get(body, "location_id") != JNull then Get(body, "location_id") else Get(event, "location_id");
    var itemName := if Truthy(Get(body, "item_name")) then Get(body, "item_name") else Get(event, "item_name");
    var itemDescription :=
      if Truthy(Get(body, "item_description")) then Get(body, "item_description") else Get(event, "item_description");
    var qtyOnHand := if Get(body, "qty_on_hand") != JNull then Get(body, "qty_on_hand") else Get(event, "qty_on_hand");
    var price := if Get(body, "price") != JNull then Get(body, "price") else Get(event, "price");
    f := Fields(itemId, locationId, itemName, itemDescription, qtyOnHand, price);
  }

  /** The handler: read the fields, validate them in order, coerce, then one
      put_item on the shared table. */
  method AddInventoryItem(
    table: Table, event: Event, loads: string -> Option<Json>, decimalOf: Json -> Option<Decimal>,
    storeFails: bool) returns (resp: Response)
    requires table.Valid() && Admissible(event, loads)
    modifies table
    ensures table.Valid()
    ensures Outcome(resp, table.items) == Create(event, loads, decimalOf, storeFails, old(table.items))
  {
    var f := ReadFields(event, loads);

    // Validation.
    if !Truthy(f.itemId) {
      return ErrorResponse(400, ItemIdRequired);
    }
    if f.locationId == JNull || f.itemName == JNull || f.qtyOnHand == JNull || f.price == JNull {
      return ErrorResponse(400, CreateFieldsRequired);
    }

    // Coerce, then write; any exception becomes a 500.
    var loc := ParseInt(f.locationId);
    if loc.None? {
      return ErrorResponse(500, InternalServerError);
    }
    var qty := ParseInt(f.qtyOnHand);
    if qty.None? {
      return ErrorResponse(500, InternalServerError);
    }
    var price := decimalOf(f.price);
    if price.None? {
      return ErrorResponse(500, InternalServerError);
    }
    var description := if Truthy(f.itemDescription) then f.itemDescription else JStr("");
    if !f.itemId.JStr? || !Storable(f.itemName) || !Storable(description) || storeFails {
      return ErrorResponse(500, InternalServerError);
    }
    table.PutItem(Record(f.itemId.s, loc.value, f.itemName, description, qty.value, price.value));
    resp := MessageResponse(201, ItemCreated, f.itemId);
  }

  /** A string body and the dict it parses to give the same fields. */
  lemma StringAndDictBodiesAgree(event: Event, loads: string -> Option<Json>, s: string, m: map<string, Json>)
    requires loads(s) == Some(JObj(m))
    ensures Resolve(event["body" := JStr(s)], loads) == Resolve(event["body" := JObj(m)], loads)
  {
  }

  /** A body that is neither a string nor a dict, or a string that does not
      parse, contributes nothing: every field is the top-level value. */
  lemma UnusableBodyFallsBackToTopLevel(event: Event, loads: string -> Option<Json>)
    requires var raw := Get(event, "body"); (raw.JStr? && loads(raw.s).None?) || (!raw.JStr? && !raw.JObj?)
    ensures Resolve(event, loads) == Fields(
      Get(event, "item_id"), Get(event, "location_id"), Get(event, "item_name"),
      Get(event, "item_description"), Get(event, "qty_on_hand"), Get(event, "price"))
  {
    TruthyVersusPresent(event, loads);
  }

  /** item_id, item_name and item_description take the body value only when
      it is truthy; location_id, qty_on_hand and price take it whenever it is
      not None, so a body value of 0 is kept. */
  lemma TruthyVersusPresent(event: Event, loads: string -> Option<Json>)
    ensures var b, f := Body(event, loads), Resolve(event, loads);
      && f.itemId == (if Truthy(Get(b, "item_id")) then Get(b, "item_id") else Get(event, "item_id"))
      && f.itemName == (if Truthy(Get(b, "item_name")) then Get(b, "item_name") else Get(event, "item_name"))
      && f.itemDescription ==
           (if Truthy(Get(b, "item_description")) then Get(b, "item_description") else Get(event, "item_description"))
      && f.locationId == (if Get(b, "location_id") != JNull then Get(b, "location_id") else Get(event, "location_id"))
      && f.qtyOnHand == (if Get(b, "qty_on_hand") != JNull then Get(b, "qty_on_hand") else Get(event, "qty_on_hand"))
      && f.price == (if Get(b, "price") != JNull then Get(b, "price") else Get(event, "price"))
  {
    var b := Body(event, loads);
    FirstTruthyOfTwo(Get(b, "item_id"), Get(event, "item_id"));
    FirstTruthyOfTwo(Get(b, "item_name"), Get(event, "item_name"));
    FirstTruthyOfTwo(Get(b, "item_description"), Get(event, "item_description"));
    FirstPresentOfTwo(Get(b, "location_id"), Get(event, "location_id"));
    FirstPresentOfTwo(Get(b, "qty_on_hand"), Get(event, "qty_on_hand"));
    FirstPresentOfTwo(Get(b, "price"), Get(event, "price"));
  }

  /** Without a truthy item_id in body or top level the answer is 400
      "item_id is required", whatever the other fields are, and nothing is
      written. */
  lemma MissingItemIdRejectedFirst(
    event: Event, loads: string -> Option<Json>, decimalOf: Json -> Option<Decimal>,
    storeFails: bool, store: Store)
    requires !Truthy(Get(Body(event, loads), "item_id")) && !Truthy(Get(event, "item_id"))
    ensures Create(event, loads, decimalOf, storeFails, store) == Outcome(ErrorResponse(400, ItemIdRequired), store)
  {
  }

  /** With item_id present, the combined 400 is returned exactly when one of
      the other required fields is None (an empty item_name passes), and then
      nothing is written. */
  lemma RequiredFieldsChecked(
    event: Event, loads: string -> Option<Json>, decimalOf: Json -> Option<Decimal>,
    storeFails: bool, store: Store)
    requires Truthy(Resolve(event, loads).itemId)
    ensures var f, r := Resolve(event, loads), Create(event, loads, decimalOf, storeFails, store);
      && (r.response == ErrorResponse(400, CreateFieldsRequired) <==>
            (f.locationId == JNull || f.itemName == JNull || f.qtyOnHand == JNull || f.price == JNull))
      && (r.response == ErrorResponse(400, CreateFieldsRequired) ==> r.store == store)
  {
  }

  /** A location_id or qty_on_hand that does not coerce to an int gives 500,
      and the table is untouched because coercion precedes put_item. */
  lemma CoercionFailureIsServerError(
    event: Event, loads: string -> Option<Json>, decimalOf: Json -> Option<Decimal>,
    storeFails: bool, store: Store)
    requires var f := Resolve(event, loads);
      && Truthy(f.itemId) && f.locationId != JNull && f.itemName != JNull && f.qtyOnHand != JNull && f.price != JNull
      && (ParseInt(f.locationId).None? || ParseInt(f.qtyOnHand).None?)
    ensures Create(event, loads, decimalOf, storeFails, store) == Outcome(ErrorResponse(500, InternalServerError), store)
  {
  }

  /** Every answer is 201, 400 or 500, and only a 201 changes the table. */
  lemma OnlySuccessWrites(
    event: Event, loads: string -> Option<Json>, decimalOf: Json -> Option<Decimal>,
    storeFails: bool, store: Store)
    ensures var r := Create(event, loads, decimalOf, storeFails, store);
      && r.response.statusCode in {201, 400, 500}
      && (r.response.statusCode != 201 ==> r.store == store)
      && (Consistent(store) ==> Consistent(r.store))
  {
  }

  /** A successful create maps (item_id, int(location_id)) to the record
      built from the request, replacing any record already there, and leaves
      every other key as it was. */
  lemma CreateUpserts(
    event: Event, loads: string -> Option<Json>, decimalOf: Json -> Option<Decimal>, store: Store,
    id: string, loc: int, qty: int, price: Decimal)
    requires var f := Resolve(event, loads);
      && f.itemId == JStr(id) && id != ""
      && ParseInt(f.locationId) == Some(loc) && ParseInt(f.qtyOnHand) == Some(qty)
      && f.itemName != JNull && f.price != JNull && decimalOf(f.price) == Some(price)
      && Storable(f.itemName) && Storable(Description(f))
    ensures var f, r := Resolve(event, loads), Create(event, loads, decimalOf, false, store);
      && r.response == MessageResponse(201, ItemCreated, JStr(id))
      && r.store.Keys == store.Keys + {(id, loc)}
      && r.store[(id, loc)] == Record(id, loc, f.itemName, Description(f), qty, price)
      && (forall k :: k in store && k != (id, loc) ==> r.store[k] == store[k])
  {
  }

  /** Retrying a create with identical input yields the same answer and
      leaves the table as the first call left it. */
  lemma CreateRetryIsHarmless(
    event: Event, loads: string -> Option<Json>, decimalOf: Json -> Option<Decimal>, store: Store)
    ensures var once := Create(event, loads, decimalOf, false, store);
      Create(event, loads, decimalOf, false, once.store) == once
  {
  }
}
