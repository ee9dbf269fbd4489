/** The `Inventory` table: records keyed by (item_id, location_id), and the
    four store calls the handlers make (put_item, delete_item, get_item and
    a scan filtered on location_id). */
module Inventory {
  import opened Json

  /** (item_id, location_id): the table's composite primary key. */
  type Key = (string, int)

  /** A record as the create handler writes it. `itemName` and
      `itemDescription` hold whatever value the request carried. */
  datatype Record = Record(
    itemId: string,
    locationId: int,
    itemName: Json,
    itemDescription: Json,
    qtyOnHand: int,
    price: Decimal)
  {
    function Key(): Key {
      (itemId, locationId)
    }
  }

  type Store = map<Key, Record>

  /** Every record sits under its own key. */
  predicate Consistent(s: Store) {
    forall k :: k in s ==> s[k].Key() == k
  }

  function IntDecimal(n: int): Decimal {
    Decimal(n < 0, if n < 0 then -n else n, 0)
  }

  /** An attribute value as the store hands it back: every number is a Decimal. */
  function StoredValue(v: Json): Json
    decreases v
  {
    match v
    case JInt(i) => JDecimal(IntDecimal(i))
    case JList(xs) => JList(seq(|xs|, i requires 0 <= i < |xs| => StoredValue(xs[i])))
    case JObj(m) => JObj(map k | k in m :: StoredValue(m[k]))
    case _ => v
  }

  /** The client library refuses to serialise a float anywhere in an item. */
  predicate Storable(v: Json)
    decreases v
  {
    match v
    case JFloat(_) => false
    case JList(xs) => forall i :: 0 <= i < |xs| ==> Storable(xs[i])
    case JObj(m) => forall k :: k in m ==> Storable(m[k])
    case _ => true
  }

  /** The item a get or a scan returns for a record. */
  function ItemJson(r: Record): Json {
    JObj(map[
      "item_id" := JStr(r.itemId),
      "location_id" := JDecimal(IntDecimal(r.locationId)),
      "item_name" := StoredValue(r.itemName),
      "item_description" := StoredValue(r.itemDescription),
      "item_qty_on_hand" := JDecimal(IntDecimal(r.qtyOnHand)),
      "item_price" := JDecimal(r.price)])
  }

  predicate Distinct(rs: seq<Record>) {
    forall i, j :: 0 <= i < j < |rs| ==> rs[i] != rs[j]
  }

  /** `rs` lists exactly the records of `s` whose location is `loc`, each once. */
  predicate ScanResult(rs: seq<Record>, s: Store, loc: int) {
    && (forall i :: 0 <= i < |rs| ==> rs[i].Key() in s && s[rs[i].Key()] == rs[i] && rs[i].locationId == loc)
    && (forall k :: k in s && s[k].locationId == loc ==> s[k] in rs)
    && Distinct(rs)
  }

  lemma {:induction false} DistinctMultiplicity(rs: seq<Record>, r: Record)
    requires Distinct(rs)
    ensures multiset(rs)[r] == if r in rs then 1 else 0
  {
    if rs != [] {
      assert rs == [rs[0]] + rs[1..];
      assert Distinct(rs[1..]) by {
        forall i, j | 0 <= i < j < |rs[1..]| ensures rs[1..][i] != rs[1..][j] {
          assert rs[1..][i] == rs[i + 1] && rs[1..][j] == rs[j + 1];
        }
      }
      DistinctMultiplicity(rs[1..], r);
      assert rs[0] !in rs[1..] by {
        forall j | 0 <= j < |rs[1..]| ensures rs[1..][j] != rs[0] {
          assert rs[1..][j] == rs[j + 1];
        }
      }
    }
  }

  /** Whatever order a scan returns, two complete scans for the same location
      are permutations of each other. */
  lemma ScanResultsArePermutations(a: seq<Record>, b: seq<Record>, s: Store, loc: int)
    requires ScanResult(a, s, loc) && ScanResult(b, s, loc)
    ensures multiset(a) == multiset(b)
  {
    forall r ensures multiset(a)[r] == multiset(b)[r] {
      DistinctMultiplicity(a, r);
      DistinctMultiplicity(b, r);
      if r in a {
        var i :| 0 <= i < |a| && a[i] == r;
        assert s[r.Key()] == r;
      }
      if r in b {
        var i :| 0 <= i < |b| && b[i] == r;
        assert s[r.Key()] == r;
      }
    }
  }

  /** The keys of the records in the store at `loc`. */
  function MatchingKeys(s: Store, loc: int): set<Key> {
    set k | k in s && s[k].locationId == loc
  }

  function KeysOf(rs: seq<Record>): set<Key> {
    set i | 0 <= i < |rs| :: rs[i].Key()
  }

  lemma {:induction false} KeysOfSize(rs: seq<Record>)
    requires forall i, j :: 0 <= i < j < |rs| ==> rs[i].Key() != rs[j].Key()
    ensures |KeysOf(rs)| == |rs|
  {
    if rs != [] {
      var tail := rs[1..];
      assert forall i, j :: 0 <= i < j < |tail| ==> tail[i].Key() != tail[j].Key() by {
        forall i, j | 0 <= i < j < |tail| ensures tail[i].Key() != tail[j].Key() {
          assert tail[i] == rs[i + 1] && tail[j] == rs[j + 1];
        }
      }
      KeysOfSize(tail);
      assert KeysOf(rs) == {rs[0].Key()} + KeysOf(tail) by {
        forall k | k in KeysOf(rs) ensures k in {rs[0].Key()} + KeysOf(tail) {
          var i :| 0 <= i < |rs| && rs[i].Key() == k;
          if i > 0 { assert tail[i - 1] == rs[i]; }
        }
        forall k | k in KeysOf(tail) ensures k in KeysOf(rs) {
          var i :| 0 <= i < |tail| && tail[i].Key() == k;
          assert rs[i + 1] == tail[i];
        }
      }
      assert rs[0].Key() !in KeysOf(tail) by {
        forall i | 0 <= i < |tail| ensures tail[i].Key() != rs[0].Key() {
          assert tail[i] == rs[i + 1];
        }
      }
    }
  }

  /** A complete scan has one entry per matching key; in particular a scan
      for a location no record has is empty. */
  lemma ScanResultSize(rs: seq<Record>, s: Store, loc: int)
    requires Consistent(s) && ScanResult(rs, s, loc)
    ensures |rs| == |MatchingKeys(s, loc)|
    ensures MatchingKeys(s, loc) == {} ==> rs == []
  {
    assert forall i, j :: 0 <= i < j < |rs| ==> rs[i].Key() != rs[j].Key();
    KeysOfSize(rs);
    assert KeysOf(rs) == MatchingKeys(s, loc) by {
      forall k | k in MatchingKeys(s, loc) ensures k in KeysOf(rs) {
        var i :| 0 <= i < |rs| && rs[i] == s[k];
        assert rs[i].Key() == k;
      }
    }
  }

  class Table {
    var items: Store

    predicate Valid()
      reads this
    {
      Consistent(items)
    }

    /** The handle `dynamodb.Table('Inventory')` opens on whatever the table holds. */
    constructor (contents: Store)
      requires Consistent(contents)
      ensures Valid() && items == contents
    {
      items := contents;
    }

    /** put_item: inserts the record, replacing any record under the same key. */
    method PutItem(r: Record)
      requires Valid()
      modifies this
      ensures Valid()
      ensures items == old(items)[r.Key() := r]
    {
      items := items[r.Key() := r];
    }

    /** delete_item: removes the key if present; an absent key is not an error. */
    method DeleteItem(k: Key)
      requires Valid()
      modifies this
      ensures Valid()
      ensures items == old(items) - {k}
    {
      items := items - {k};
    }

    /** get_item: the record under the key, if any. */
    method GetItem(k: Key) returns (r: Option<Record>)
      ensures r.Some? <==> k in items
      ensures r.Some? ==> r.value == items[k]
    {
      if k in items {
        r := Some(items[k]);
      } else {
        r := None;
      }
    }

    /** A complete scan filtered on location_id, in no particular order. */
    method Scan(loc: int) returns (rs: seq<Record>)
      requires Valid()
      ensures ScanResult(rs, items, loc)
    {
      rs := [];
      var todo := items.Keys;
      while todo != {}
        invariant todo <= items.Keys
        invariant forall i :: 0 <= i < |rs| ==>
          rs[i].Key() in items && items[rs[i].Key()] == rs[i] && rs[i].locationId == loc && rs[i].Key() !in todo
        invariant forall k :: k in items && k !in todo && items[k].locationId == loc ==> items[k] in rs
        invariant Distinct(rs)
        decreases |todo|
      {
        var k :| k in todo;
        if items[k].locationId == loc {
          rs := rs + [items[k]];
        }
        todo := todo - {k};
      }
    }
  }
}
