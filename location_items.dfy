/** lambda/get_location_inventory_items: every record stored at one location. */
module LocationItems {
  import opened Json
  import opened Fallback
  import opened Transport
  import opened Inventory
  import opened Gateway

  /** location_id: path `/location/{id}`, else the query string, else the
      top level, each consulted only while the value is still None. */
  function LocationParam(event: Event): Json {
    FirstPresent([Param(event, "pathParameters", "id"), Param(event, "queryStringParameters", "location_id"),
                  Get(event, "location_id")])
  }

  /** The inputs on which the handler raises nothing uncaught: the path
      parameters are falsy or a dict, so are the query string parameters
      when they are consulted, and the location is not a list or dict, on
      which `int(...)` raises a TypeError the handler does not catch. */
  predicate Admissible(event: Event) {
    && ParamsShaped(event, "pathParameters")
    && (Param(event, "pathParameters", "id") == JNull ==> ParamsShaped(event, "queryStringParameters"))
    && !LocationParam(event).JList?
    && !LocationParam(event).JObj?
  }

  /** What validation decides: an error message, or the location to scan for. */
  datatype Query = Rejected(message: string) | ScanFor(loc: int)

  function Decide(event: Event): Query {
    var v := LocationParam(event);
    if v == JNull then Rejected(LocationRequired)
    else match ParseInt(v)
      case None => Rejected(LocationNotInteger)
      case Some(loc) => ScanFor(loc)
  }

  /** The 200 body for the scanned records, Decimals converted to floats. */
  function Listing(rs: seq<Record>, toFloat: Decimal -> Float): Json {
    DecimalToFloat(JList(seq(|rs|, i requires 0 <= i < |rs| => ItemJson(rs[i]))), toFloat)
  }

  /** The handler. It has no modifies clause: the table is only scanned.
      `scanned` is the scan's `Items`, in the order the scan returned them;
      `storeFails` says whether the scan raises. */
  method ListLocationItems(table: Table, event: Event, toFloat: Decimal -> Float, storeFails: bool)
    returns (resp: Response, scanned: seq<Record>)
    requires table.Valid() && Admissible(event)
    ensures match Decide(event)
      case Rejected(msg) => resp == ErrorResponse(400, msg)
      case ScanFor(loc) =>
        if storeFails then resp == ErrorResponse(500, InternalServerError)
        else ScanResult(scanned, table.items, loc) && resp == Response(200, Listing(scanned, toFloat))
  {
    FirstPresentOfThree(Param(event, "pathParameters", "id"), Param(event, "queryStringParameters", "location_id"),
                        Get(event, "location_id"));
    scanned := [];
    var locationId := JNull;

    // 1) Path parameter, taken whenever the key is present.
    var pathParams := Params(event, "pathParameters");
    if "id" in pathParams {
      locationId := pathParams["id"];
    }

    // 2) Query string, only while still None.
    if locationId == JNull {
      var queryParams := Params(event, "queryStringParameters");
      if queryParams != map[] {
        locationId := Get(queryParams, "location_id");
      }
    }

    // 3) Top-level key, only while still None.
    if locationId == JNull {
      locationId := Get(event, "location_id");
    }

    if locationId == JNull {
      resp := ErrorResponse(400, LocationRequired);
      return;
    }
    var loc := ParseInt(locationId);
    if loc.None? {
      resp := ErrorResponse(400, LocationNotInteger);
      return;
    }
    if storeFails {
      resp := ErrorResponse(500, InternalServerError);
      return;
    }
    scanned := table.Scan(loc.value);
    resp := Response(200, Listing(scanned, toFloat));
  }

  /** Validation: 400 "location_id is required" exactly when every source is
      None, 400 "location_id must be an integer" exactly when the value does
      not coerce, and a scan for the coerced value otherwise. */
  lemma DecideCases(event: Event)
    ensures var v := LocationParam(event);
      && (Decide(event) == Rejected(LocationRequired) <==> v == JNull)
      && (Decide(event) == Rejected(LocationNotInteger) <==> v != JNull && ParseInt(v).None?)
      && (Decide(event).ScanFor? <==> ParseInt(v).Some?)
      && (Decide(event).ScanFor? ==> Decide(event).loc == ParseInt(v).value)
  {
  }

  /** A present path id wins even when it is falsy: an empty `/location/`
      segment is "must be an integer", never the query string's value. */
  lemma PresentPathIdWins(event: Event, query: Json)
    requires ParamsShaped(event, "pathParameters")
    requires Param(event, "pathParameters", "id") == JStr("")
    ensures Decide(event) == Rejected(LocationNotInteger)
    ensures Decide(event["queryStringParameters" := query]) == Rejected(LocationNotInteger)
  {
  }

  /** A complete listing holds one converted item per record stored at the
      location, each the item of a record stored there under its own key,
      and any two complete listings hold the same records. */
  lemma ListingMatchesStore(rs: seq<Record>, s: Store, loc: int, toFloat: Decimal -> Float)
    requires Consistent(s) && ScanResult(rs, s, loc)
    ensures Listing(rs, toFloat).JList?
    ensures var xs := Listing(rs, toFloat).items;
      && |xs| == |MatchingKeys(s, loc)|
      && forall i :: 0 <= i < |xs| ==>
           xs[i] == DecimalToFloat(ItemJson(rs[i]), toFloat) && rs[i].locationId == loc && rs[i].Key() in s
    ensures forall other: seq<Record> :: ScanResult(other, s, loc) ==> multiset(other) == multiset(rs)
  {
    ScanResultSize(rs, s, loc);
    forall other: seq<Record> | ScanResult(other, s, loc) ensures multiset(other) == multiset(rs) {
      ScanResultsArePermutations(other, rs, s, loc);
    }
  }
}
