/** How the handlers compose over one table: what a later request sees after
    a create or a delete. */
module Scenarios {
  import opened Json
  import opened Fallback
  import opened Transport
  import opened Inventory
  import opened Gateway
  import AddItem
  import GetItem
  import DeleteItem
  import LocationItems

  /** `GET /item/{id}?location_id=<loc>` as the gateway delivers it. */
  function GetRequest(id: string, loc: int): Event {
    map["pathParameters" := JObj(map["id" := JStr(id)]),
        "queryStringParameters" := JObj(map["location_id" := JStr(FormatInt(loc))])]
  }

  /** `GET /location/{loc}` as the gateway delivers it. */
  function ListRequest(loc: int): Event {
    map["pathParameters" := JObj(map["id" := JStr(FormatInt(loc))])]
  }

  /** The get request names the key it was built from. */
  lemma GetRequestNamesKey(id: string, loc: int, loads: string -> Option<Json>)
    requires id != ""
    ensures GetItem.Admissible(GetRequest(id, loc))
    ensures var (itemId, locationId) := GetItem.ResolveKey(GetRequest(id, loc), loads);
      itemId == JStr(id) && ParseInt(locationId) == Some(loc)
  {
    ParseFormatRoundTrip(loc);
    GetItem.FirstTruthyOrder(GetRequest(id, loc), loads);
  }

  /** The list request asks for a scan of the location it was built from. */
  lemma ListRequestNamesLocation(loc: int)
    ensures LocationItems.Admissible(ListRequest(loc))
    ensures LocationItems.Decide(ListRequest(loc)) == LocationItems.ScanFor(loc)
  {
    ParseFormatRoundTrip(loc);
    var e := ListRequest(loc);
    FirstPresentOfThree(Param(e, "pathParameters", "id"), Param(e, "queryStringParameters", "location_id"),
                        Get(e, "location_id"));
  }

  /** A get of a stored key answers 200 with that record: the id as stored,
      and the quantity and price as the floats of the stored Decimals. */
  lemma GetStoredRecord(loads: string -> Option<Json>, toFloat: Decimal -> Float, store: Store, rec: Record)
    requires rec.itemId != "" && rec.Key() in store && store[rec.Key()] == rec
    ensures var r := GetItem.Retrieve(GetRequest(rec.itemId, rec.locationId), loads, toFloat, false, store);
      && r == Response(200, DecimalToFloat(ItemJson(rec), toFloat))
      && r.body.JObj?
      && r.body.fields["item_id"] == JStr(rec.itemId)
      && r.body.fields["item_qty_on_hand"] == JFloat(toFloat(IntDecimal(rec.qtyOnHand)))
      && r.body.fields["item_price"] == JFloat(toFloat(rec.price))
  {
    GetRequestNamesKey(rec.itemId, rec.locationId, loads);
    GetItem.LookupByKey(GetRequest(rec.itemId, rec.locationId), loads, toFloat, store, rec.itemId, rec.locationId);
    GetItem.ConvertedItem(rec, toFloat);
  }

  /** After a successful create, getting the same key answers 200 with the
      record just written, whose price is the exact Decimal `decimalOf` made
      of the request's price (so by GetStoredRecord the answer carries its
      float). */
  lemma CreateThenGet(
    event: Event, loads: string -> Option<Json>, decimalOf: Json -> Option<Decimal>, toFloat: Decimal -> Float,
    store: Store, id: string, loc: int, qty: int, price: Decimal)
    requires var f := AddItem.Resolve(event, loads);
      && f.itemId == JStr(id) && id != ""
      && ParseInt(f.locationId) == Some(loc) && ParseInt(f.qtyOnHand) == Some(qty)
      && f.itemName != JNull && f.price != JNull && decimalOf(f.price) == Some(price)
      && Storable(f.itemName) && Storable(AddItem.Description(f))
    ensures var f := AddItem.Resolve(event, loads);
      var after := AddItem.Create(event, loads, decimalOf, false, store).store;
      var r := GetItem.Retrieve(GetRequest(id, loc), loads, toFloat, false, after);
      r == Response(200, DecimalToFloat(ItemJson(Record(id, loc, f.itemName, AddItem.Description(f), qty, price)), toFloat))
  {
    var f := AddItem.Resolve(event, loads);
    var rec := Record(id, loc, f.itemName, AddItem.Description(f), qty, price);
    AddItem.CreateUpserts(event, loads, decimalOf, store, id, loc, qty, price);
    GetStoredRecord(loads, toFloat, AddItem.Create(event, loads, decimalOf, false, store).store, rec);
  }

  /** After a successful create, a complete scan of its location lists the
      record just written. */
  lemma CreateThenListed(
    event: Event, loads: string -> Option<Json>, decimalOf: Json -> Option<Decimal>,
    store: Store, id: string, loc: int, qty: int, price: Decimal, rs: seq<Record>)
    requires var f := AddItem.Resolve(event, loads);
      && f.itemId == JStr(id) && id != ""
      && ParseInt(f.locationId) == Some(loc) && ParseInt(f.qtyOnHand) == Some(qty)
      && f.itemName != JNull && f.price != JNull && decimalOf(f.price) == Some(price)
      && Storable(f.itemName) && Storable(AddItem.Description(f))
    requires ScanResult(rs, AddItem.Create(event, loads, decimalOf, false, store).store, loc)
    ensures var f := AddItem.Resolve(event, loads);
      Record(id, loc, f.itemName, AddItem.Description(f), qty, price) in rs
  {
    AddItem.CreateUpserts(event, loads, decimalOf, store, id, loc, qty, price);
  }

  /** After a successful delete, getting the same key answers 404. */
  lemma DeleteThenGetNotFound(
    event: Event, loads: string -> Option<Json>, toFloat: Decimal -> Float, store: Store, id: string, loc: int)
    requires DeleteItem.ItemId(event) == JStr(id) && id != ""
    requires ParseInt(DeleteItem.LocationId(event, loads)) == Some(loc)
    ensures var after := DeleteItem.Remove(event, loads, false, store).store;
      GetItem.Retrieve(GetRequest(id, loc), loads, toFloat, false, after) == ErrorResponse(404, ItemNotFound)
  {
    var after := DeleteItem.Remove(event, loads, false, store).store;
    DeleteItem.DeleteRemovesKey(event, loads, store, id, loc);
    GetRequestNamesKey(id, loc, loads);
    GetItem.LookupByKey(GetRequest(id, loc), loads, toFloat, after, id, loc);
  }

  /** After a successful delete, no complete scan of its location lists a
      record under the deleted key. */
  lemma DeleteThenNotListed(
    event: Event, loads: string -> Option<Json>, store: Store, id: string, loc: int, rs: seq<Record>)
    requires DeleteItem.ItemId(event) == JStr(id) && id != ""
    requires ParseInt(DeleteItem.LocationId(event, loads)) == Some(loc)
    requires ScanResult(rs, DeleteItem.Remove(event, loads, false, store).store, loc)
    ensures forall i :: 0 <= i < |rs| ==> rs[i].Key() != (id, loc)
  {
  }
}
