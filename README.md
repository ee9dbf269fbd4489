# Inventory API handlers, modelled in Dafny

The system is a small inventory service. It runs on AWS Lambda behind API Gateway and keeps its data in one DynamoDB
table, `Inventory`. Each record is keyed by the pair (`item_id` string, `location_id` number).

This project models four handlers, each in its own module:

- **create** (`AddItem`). Reads the fields from a JSON body or from the top level of the event. Validates them, coerces
  the numbers, and upserts one record.
- **get** (`GetItem`). Reads the key from the path, the query string, the body and the top level, in that order, and
  looks one record up.
- **delete** (`DeleteItem`). Takes `item_id` from the path only. Takes `location_id` from the body, the query string or
  the top level, and removes that key.
- **list by location** (`LocationItems`). Takes a location from the path, the query string or the top level, and scans
  the table for the records stored there.

The shared modules are:

- `Json`: the values that `json.loads` produces, Python truthiness, and `int(...)` coercion.
- `Fallback`: the two ways a field picks its source. One is Python's `a or b or c`; the other is "the first value that
  is not None".
- `Transport`: `_decimal_to_float`, the recursive map that turns every Decimal into a float before serialisation.
- `Inventory`: the table, as a class with a `map` field, and its four calls: `put_item`, `delete_item`, `get_item`,
  and a scan filtered on location.
- `Gateway`: the event, the response, and the exact error and message strings.

`Scenarios` proves how the handlers compose over one table. A create followed by a get returns the record. A delete
followed by a get returns 404. A listing after a create holds the new record, and a listing after a delete does not
hold the removed key.

Each handler follows the same pattern:

- a specification function over the table's contents;
- an imperative method that follows the handler's own step-by-step rebinding of variables, proved equal to that
  function;
- lemmas about the function.

The read-only handlers, get and list, have no `modifies` clause. The create and delete methods modify only the table.

Some behaviour comes from outside the handlers, and enters the model as parameters:

- `loads` is `json.loads`;
- `decimalOf` is `Decimal(str(x))`;
- `toFloat` is `float(Decimal)`;
- `storeFails` says whether the DynamoDB call raises.

Two ways the store refuses a write are deterministic, and the model derives them itself. A non-string `item_id` does
not match the key schema. A float anywhere in `item_name` or `item_description` is refused by the client library.

Three behaviours of the code are easy to miss:

- A record is stored under the attributes `item_qty_on_hand` and `item_price`, so a get answers with those names.
- A get answers with every number as a float: `location_id`, the quantity and the price. The price is the float of the
  exact Decimal that was stored.
- In the get handler, a `location_id` that does not coerce gives 500, not 400, because the `int(...)` call sits inside
  the `try` block.

## Model

| member | source | states |
|---|---|---|
| Json.ParseFormatRoundTrip | lambda/get_inventory_item/lambda_function.py:59 | `int(str(n)) == n` for every integer: a location sent as text coerces back to the same number |
| Json.ParseIntTextRejects | lambda/delete_inventory_item/lambda_function.py:55-61 | a string with a character that is neither a digit nor a leading sign does not coerce to an int |
| Json.ParseFormatNat | lambda/get_inventory_item/lambda_function.py:59 | the decimal digits of a natural number parse back to it |
| Json.ParseDigitsRejects | lambda/delete_inventory_item/lambda_function.py:56 | a digit string holding any non-digit does not parse |
| Fallback.FirstTruthyIndex | lambda/add_inventory_item/lambda_function.py:28 | `a or b or ...` takes the first truthy candidate, and the last one when none is truthy |
| Fallback.FirstPresentIndex | lambda/add_inventory_item/lambda_function.py:29 | "is not None" fallback takes the first candidate that is not None, or None when all are |
| Fallback.FirstTruthyOfTwo | lambda/add_inventory_item/lambda_function.py:28 | `a or b` is `a` when `a` is truthy, else `b` |
| Fallback.FirstTruthyOfThree | lambda/get_inventory_item/lambda_function.py:24-46 | `a or b or c` is the first truthy of the three, else `c` |
| Fallback.FirstPresentOfTwo | lambda/add_inventory_item/lambda_function.py:29 | `a if a is not None else b` |
| Fallback.FirstPresentOfThree | lambda/delete_inventory_item/lambda_function.py:20-38 | the first of three values that is not None, else the third |
| Transport.DecimalToFloatShape | lambda/get_inventory_item/lambda_function.py:8-15 | the conversion keeps list lengths and order, dict keys and every non-Decimal leaf, and replaces each Decimal by a float |
| Transport.DecimalToFloatRemovesDecimals | lambda/get_inventory_item/lambda_function.py:8-15 | no Decimal is left at any depth after the conversion |
| Transport.DecimalToFloatKeepsDecimalFree | lambda/get_location_inventory_items/lambda_function.py:10-17 | a value without Decimals comes back unchanged |
| Inventory.DistinctMultiplicity | lambda/get_location_inventory_items/lambda_function.py:57-61 | a scan result without repeats holds each record at most once |
| Inventory.ScanResultsArePermutations | lambda/get_location_inventory_items/lambda_function.py:57-61 | any two complete scans for one location are permutations of each other |
| Inventory.KeysOfSize | lambda/get_location_inventory_items/lambda_function.py:57-61 | records with pairwise distinct keys have as many keys as records |
| Inventory.ScanResultSize | lambda/get_location_inventory_items/lambda_function.py:57-61 | a complete scan has exactly one entry per key stored at the location, and is empty when no record is |
| Inventory.Table.constructor | lambda/add_inventory_item/lambda_function.py:5-6 | the shared handle opens on any consistent contents, and the table holds exactly those contents |
| Inventory.Table.PutItem | lambda/add_inventory_item/lambda_function.py:57-66 | the record is stored under its key, replacing any record there, and nothing else changes |
| Inventory.Table.DeleteItem | lambda/delete_inventory_item/lambda_function.py:67-72 | the key is removed if present, an absent key is not an error, and nothing else changes |
| Inventory.Table.GetItem | lambda/get_inventory_item/lambda_function.py:56-67 | a record is returned exactly when the key is stored, and it is the stored record |
| Inventory.Table.Scan | lambda/get_location_inventory_items/lambda_function.py:57-61 | the result lists every record stored at the location, only those, each once, each under its own key |
| AddItem.ReadFields | lambda/add_inventory_item/lambda_function.py:13-33 | reading the body and then each field, as written, yields the declarative resolution |
| AddItem.AddInventoryItem | lambda/add_inventory_item/lambda_function.py:9-78 | the response and the new table are those of the create specification, and the table stays consistent |
| AddItem.StringAndDictBodiesAgree | lambda/add_inventory_item/lambda_function.py:16-25 | a JSON string body and the dict it parses to give the same fields |
| AddItem.UnusableBodyFallsBackToTopLevel | lambda/add_inventory_item/lambda_function.py:16-33 | a body that does not parse, or is neither string nor dict, leaves every field to the top level |
| AddItem.TruthyVersusPresent | lambda/add_inventory_item/lambda_function.py:28-33 | id, name and description take a body value only when truthy; location, quantity and price whenever it is not None, so 0 is kept |
| AddItem.MissingItemIdRejectedFirst | lambda/add_inventory_item/lambda_function.py:36-40 | without a truthy item_id the answer is 400 "item_id is required" whatever else is sent, and nothing is written |
| AddItem.RequiredFieldsChecked | lambda/add_inventory_item/lambda_function.py:42-48 | with an item_id, the combined 400 comes exactly when a required field is None, and nothing is written |
| AddItem.CoercionFailureIsServerError | lambda/add_inventory_item/lambda_function.py:51-54 | a location or quantity that does not coerce gives 500 and leaves the table untouched |
| AddItem.OnlySuccessWrites | lambda/add_inventory_item/lambda_function.py:36-78 | every answer is 201, 400 or 500; only a 201 changes the table; consistency is preserved |
| AddItem.CreateUpserts | lambda/add_inventory_item/lambda_function.py:53-71 | a valid create maps (item_id, int(location_id)) to the request's record, with the description defaulting to "", replaces any old record and keeps every other key |
| AddItem.CreateRetryIsHarmless | lambda/add_inventory_item/lambda_function.py:57-66 | repeating an identical create returns the same answer and leaves the table as the first call left it |
| GetItem.ReadKey | lambda/get_inventory_item/lambda_function.py:21-46 | the four stages as written, with the body read only while a field is falsy, yield the first truthy value per field |
| GetItem.GetInventoryItem | lambda/get_inventory_item/lambda_function.py:17-81 | the response is that of the get specification, and the table is not modified |
| GetItem.FirstTruthyOrder | lambda/get_inventory_item/lambda_function.py:24-46 | item_id is path, else body, else top level by truthiness; location_id is query, else body, else top level |
| GetItem.BodyFillsOnlyMissing | lambda/get_inventory_item/lambda_function.py:34-40 | truthy path and query values win outright, and a body that parses to no dict has no effect |
| GetItem.KeyRequired400 | lambda/get_inventory_item/lambda_function.py:49-53 | 400 "item_id and location_id are required" exactly when item_id is falsy or location_id is None |
| GetItem.NonIntegerLocationIs500 | lambda/get_inventory_item/lambda_function.py:55-81 | a location that does not coerce gives 500 |
| GetItem.LookupByKey | lambda/get_inventory_item/lambda_function.py:56-74 | for a well-formed key, 404 exactly when the key is absent, otherwise 200 with the stored record converted |
| GetItem.ConvertedItem | lambda/get_inventory_item/lambda_function.py:69 | the 200 item has the six stored attributes, with location, quantity and price as floats of the stored Decimals |
| DeleteItem.ReadLocation | lambda/delete_inventory_item/lambda_function.py:20-38 | body, then query string, then top level, each only while None, as written, yields the first value that is not None |
| DeleteItem.DeleteInventoryItem | lambda/delete_inventory_item/lambda_function.py:8-84 | the response and the new table are those of the delete specification, and the table stays consistent |
| DeleteItem.LocationPrecedence | lambda/delete_inventory_item/lambda_function.py:20-38 | location_id is the body's unless None, then the query's unless None, then the top level's; a falsy value is kept |
| DeleteItem.ValidationOrder | lambda/delete_inventory_item/lambda_function.py:43-61 | the three 400s come in order with their own messages, only a 200 changes the table, and every answer is 200, 400 or 500 |
| DeleteItem.ItemIdOnlyFromPath | lambda/delete_inventory_item/lambda_function.py:14-15 | without a truthy path id the answer is 400 "item_id is required" for every event with the same path id, whatever its body, query string and top-level keys hold |
| DeleteItem.DeleteRemovesKey | lambda/delete_inventory_item/lambda_function.py:66-76 | a valid delete removes exactly its key, keeps every other record, and answers 200 whether or not the key existed |
| DeleteItem.RemoveIdempotent | lambda/delete_inventory_item/lambda_function.py:66-76 | deleting twice answers the same as, and leaves the table as, deleting once |
| DeleteItem.RemoveKeepsConsistent | lambda/delete_inventory_item/lambda_function.py:66-72 | every record stays under its own key after a delete |
| LocationItems.ListLocationItems | lambda/get_location_inventory_items/lambda_function.py:20-73 | 400 per the validation decision; otherwise 500 when the scan fails, else 200 with the converted items of a complete scan, and the table is not modified |
| LocationItems.DecideCases | lambda/get_location_inventory_items/lambda_function.py:40-53 | "location_id is required" exactly when every source is None, "must be an integer" exactly when it does not coerce, else a scan for the coerced value |
| LocationItems.PresentPathIdWins | lambda/get_location_inventory_items/lambda_function.py:26-31 | a present path id is used even when falsy: an empty one is "must be an integer", whatever the query string says |
| LocationItems.ListingMatchesStore | lambda/get_location_inventory_items/lambda_function.py:57-66 | the listing has one converted item per record stored at the location, and any two complete listings hold the same records |
| Scenarios.GetRequestNamesKey | lambda/get_inventory_item/lambda_function.py:24-31 | `GET /item/{id}?location_id=n` resolves to (id, n) |
| Scenarios.ListRequestNamesLocation | lambda/get_location_inventory_items/lambda_function.py:26-28 | `GET /location/n` asks for a scan of n |
| Scenarios.GetStoredRecord | lambda/get_inventory_item/lambda_function.py:56-74 | a get of a stored key answers 200 with its id, and its quantity and price as floats of the stored Decimals |
| Scenarios.CreateThenGet | lambda/get_inventory_item/lambda_function.py:56-74 | after a valid create, a get of its key answers 200 with the record written, whose price is the exact Decimal made from the request's price |
| Scenarios.CreateThenListed | lambda/get_location_inventory_items/lambda_function.py:57-66 | after a valid create, every complete scan of its location lists the new record |
| Scenarios.DeleteThenGetNotFound | lambda/get_inventory_item/lambda_function.py:63-67 | after a valid delete, a get of the same key answers 404 |
| Scenarios.DeleteThenNotListed | lambda/get_location_inventory_items/lambda_function.py:57-61 | after a valid delete, no complete scan of its location lists the deleted key |

## Left out

- Json.ParseInt: `int(...)` is modelled for ints, bools and strings of an optional sign and ASCII digits. Python
  truncates a float (`int(3.7) == 3`) and accepts surrounding whitespace, underscores between digits and non-ASCII
  digits. The model treats these as not coercible.
- Floating-point and Decimal arithmetic: `json.loads`, `Decimal(str(x))` and `float(Decimal)` are the abstract
  parameters `loads`, `decimalOf` and `toFloat`.
- `json.dumps` of the response body is not modelled. A response carries the value before serialisation.
- The DynamoDB service: network errors, throttling, size limits and the 38-digit number limit are all covered by
  `storeFails`. The model derives only two refusals: the key-schema mismatch and floats in an item.
- Scan paging: `table.scan` returns at most one page and the handler does not follow `LastEvaluatedKey`. The model's
  scan is complete.
- Uncaught exceptions are excluded by each handler's `Admissible` precondition. These are:
  - a truthy `pathParameters` or `queryStringParameters` that is not a dict ends the invocation with an error, not a
    response;
  - in create, a JSON body that parses to something other than an object;
  - in list by location, a location that is a list or a dict (`int` raises `TypeError`, which the handler does not
    catch).
- LocationItems.Admissible: it also excludes a path-parameters value that is a non-dict truthy string or list. For
  such a value the handler's `"id" in path_params` does not raise.
- A `location_id` of a type that `int(...)` refuses, or one that overflows, is left out together with floats (see
  ParseInt above).
- The presence test `"id" in path_params` in list by location is modelled as `.get("id")`. Both give None when the key
  is absent, and a None value falls through to the next source either way.
- Logging is not modelled: the `print` of the event and of errors has no effect on the response. The event's
  serialisation for the log, which could raise on a non-serialisable event, is not modelled either.
- Concurrency between invocations is not modelled; each handler runs against one table state.
- lambda/get_all_inventory_items, the listing of every record, is not part of this model.
