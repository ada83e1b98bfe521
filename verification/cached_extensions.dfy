/**
 * The cache-first extension queries: the orders recorded for a bill, served from
 * the cache when it holds an extension entry and otherwise from the collected
 * orders, and the latest date among them that can be read.
 */
module CachedExtensions {
  import opened Wrappers
  import opened Models
  import opened ParserCache
  import opened ExtensionOrders

  /** One order as the query reports it: the `extension_date` and `extension_order_url` keys, when present. */
  datatype OrderRecord = OrderRecord(billId: string, extensionDate: Option<Json>, orderUrl: Option<Json>)

  /** The records for collected orders: the date rendered with `isoformat()`. */
  function Records(orders: seq<ExtensionOrder>, isoDate: Date -> string): (r: seq<OrderRecord>)
    ensures |r| == |orders|
    ensures forall k :: 0 <= k < |r| ==>
              r[k] == OrderRecord(orders[k].billId, Some(JStr(isoDate(orders[k].extensionDate))), Some(JStr(orders[k].url)))
  {
    if |orders| == 0 then []
    else [OrderRecord(orders[0].billId, Some(JStr(isoDate(orders[0].extensionDate))), Some(JStr(orders[0].url)))]
         + Records(orders[1..], isoDate)
  }

  /** The cached extension entry, when the cache is given and the entry is a non-empty object. */
  function CachedEntry(cache: Option<Cache>, bill: string): (r: Option<map<string, Json>>)
    ensures r.Some? ==> |r.value| > 0
  {
    if cache.None? then None
    else match GetExtension(cache.value, bill)
         case Some(e) => if |e| > 0 then Some(e) else None
         case None => None
  }

  /**
   * `get_extension_orders_for_bill` as written: a cached entry is read with `[]`,
   * so an entry without "extension_date" or "extension_url" raises `KeyError`,
   * which is the key returned here. The cache writes of the scrape path are
   * `CacheAfterQuery`.
   */
  function OrdersForBillAsWritten(cache: Option<Cache>, bill: string, collected: seq<ExtensionOrder>,
                                  isoDate: Date -> string): (r: Result<seq<OrderRecord>, string>)
    ensures CachedEntry(cache, bill).None? ==> r == Ok(Records(OrdersForBill(collected, bill), isoDate))
  {
    match CachedEntry(cache, bill)
    case Some(e) =>
      if "extension_date" !in e then Err("extension_date")
      else if "extension_url" !in e then Err("extension_url")
      else Ok([OrderRecord(bill, Some(e["extension_date"]), Some(e["extension_url"]))])
    case None => Ok(Records(OrdersForBill(collected, bill), isoDate))
  }

  /**
   * The cache as `get_extension_orders_for_bill` leaves it. A usable cached entry
   * is read and nothing is written; otherwise `collect_all_extension_orders` is given
   * the cache and writes every collected order into it (`CacheCollectedOrders`).
   */
  function CacheAfterQuery(cache: Option<Cache>, bill: string, collected: seq<ExtensionOrder>,
                           isoDate: Date -> string, now: string): (r: Option<Cache>)
    ensures r.None? <==> cache.None?
    ensures CachedEntry(cache, bill).Some? ==> r == cache
    ensures r.Some? ==> forall b, k :: k != "extensions" ==> Entry(r.value, b, k) == Entry(cache.value, b, k)
    ensures cache.Some? && CachedEntry(cache, bill).None? ==>
              forall k :: 0 <= k < |collected| ==> CachedEntry(r, collected[k].billId).Some?
  {
    match cache
    case None => None
    case Some(c) =>
      if CachedEntry(cache, bill).Some? then cache
      else
        CollectedBillsCached(c, collected, isoDate, now);
        Some(CacheCollectedOrders(c, collected, isoDate, now))
  }

  /**
   * `get_extension_orders_for_bill` as evidently intended: a cached entry is reported
   * with the keys it has, so the date query's `KeyError` handler skips it.
   */
  function CachedOrdersForBill(cache: Option<Cache>, bill: string, collected: seq<ExtensionOrder>,
                               isoDate: Date -> string): (r: seq<OrderRecord>)
    ensures CachedEntry(cache, bill).Some? ==> |r| == 1 && r[0].billId == bill
    ensures CachedEntry(cache, bill).None? ==> r == Records(OrdersForBill(collected, bill), isoDate)
    ensures OrdersForBillAsWritten(cache, bill, collected, isoDate).Ok? ==>
              r == OrdersForBillAsWritten(cache, bill, collected, isoDate).value
  {
    match CachedEntry(cache, bill)
    case Some(e) => [OrderRecord(bill, Field(Some(JObject(e)), "extension_date"), Field(Some(JObject(e)), "extension_url"))]
    case None => Records(OrdersForBill(collected, bill), isoDate)
  }

  /** The date of a record as `datetime.fromisoformat` reads it: absent when the key is missing or the text does not parse. */
  function RecordDate(rec: OrderRecord, parseIso: string -> Option<Date>): Option<Date> {
    match rec.extensionDate
    case Some(JStr(s)) => parseIso(s)
    case _ => None
  }

  /** A record whose date is a JSON value other than a string, on which `fromisoformat` raises `TypeError`. */
  predicate DateNotText(rec: OrderRecord) {
    rec.extensionDate.Some? && !rec.extensionDate.value.JStr?
  }

  /**
   * The loop of `get_latest_extension_date`: the largest readable date, skipping
   * records whose date is missing or unreadable; a date that is not text escapes.
   */
  function LatestReadable(records: seq<OrderRecord>, parseIso: string -> Option<Date>): (r: Result<Option<Date>, OrderRecord>)
    ensures r.Err? <==> exists k :: 0 <= k < |records| && DateNotText(records[k])
    ensures r.Ok? ==> (r.value.None? <==> forall k :: 0 <= k < |records| ==> RecordDate(records[k], parseIso).None?)
    ensures r.Ok? && r.value.Some? ==>
              (exists k :: 0 <= k < |records| && RecordDate(records[k], parseIso) == r.value)
              && forall k :: 0 <= k < |records| && RecordDate(records[k], parseIso).Some? ==>
                               RecordDate(records[k], parseIso).value <= r.value.value
  {
    if |records| == 0 then Ok(None)
    else if DateNotText(records[0]) then Err(records[0])
    else
      match LatestReadable(records[1..], parseIso)
      case Err(bad) => Err(bad)
      case Ok(rest) =>
        assert forall k :: 1 <= k < |records| ==> records[k] == records[1..][k - 1];
        var here := RecordDate(records[0], parseIso);
        if here.Some? && (rest.None? || here.value > rest.value) then Ok(here) else Ok(rest)
  }

  /** Why `get_latest_extension_date` can fail: a missing cached key, or a cached date that is not text. */
  datatype LatestFailure = KeyMissing(key: string) | NotText(record: OrderRecord)

  /** `get_latest_extension_date` as written. */
  function LatestExtensionDateAsWritten(cache: Option<Cache>, bill: string, collected: seq<ExtensionOrder>,
                                        isoDate: Date -> string, parseIso: string -> Option<Date>)
    : (r: Result<Option<Date>, LatestFailure>)
    ensures OrdersForBillAsWritten(cache, bill, collected, isoDate).Err? ==>
              r == Err(KeyMissing(OrdersForBillAsWritten(cache, bill, collected, isoDate).error))
  {
    match OrdersForBillAsWritten(cache, bill, collected, isoDate)
    case Err(key) => Err(KeyMissing(key))
    case Ok(records) =>
      if |records| == 0 then Ok(None)
      else match LatestReadable(records, parseIso)
           case Err(bad) => Err(NotText(bad))
           case Ok(d) => Ok(d)
  }

  /** A bill the collector marked as found only through its URL makes the query raise. */
  lemma MarkerMakesQueryRaise(c: Cache, bill: string, collected: seq<ExtensionOrder>, now: string,
                              isoDate: Date -> string, parseIso: string -> Option<Date>)
    ensures LatestExtensionDateAsWritten(Some(AddBillWithExtensions(c, bill, now)), bill, collected, isoDate, parseIso)
         == Err(KeyMissing("extension_date"))
  {
    ExtensionEntries(c, bill, "", "", now);
  }

  /**
   * Asking twice about a bill whose last collected order came only through its URL:
   * the first query scrapes and succeeds, and leaves the marker in the cache, so the
   * second query raises `KeyError("extension_date")`, whatever a later scrape would find.
   */
  lemma SecondQueryRaises(c: Cache, bill: string, before: seq<ExtensionOrder>, o: ExtensionOrder,
                          after: seq<ExtensionOrder>, later: seq<ExtensionOrder>, now: string,
                          isoDate: Date -> string, parseIso: string -> Option<Date>)
    requires CachedEntry(Some(c), bill).None?
    requires o.billId == bill && o.isFallback
    requires forall k :: 0 <= k < |after| ==> after[k].billId != bill
    ensures LatestExtensionDateAsWritten(Some(c), bill, before + [o] + after, isoDate, parseIso).Ok?
    ensures LatestExtensionDateAsWritten(CacheAfterQuery(Some(c), bill, before + [o] + after, isoDate, now),
                                         bill, later, isoDate, parseIso)
         == Err(KeyMissing("extension_date"))
  {
    var collected := before + [o] + after;
    var records := Records(OrdersForBill(collected, bill), isoDate);
    assert forall k :: 0 <= k < |records| ==> !DateNotText(records[k]);
    CacheCollectedAppend(c, before + [o], after, isoDate, now);
    CacheCollectedOtherBills(CacheCollectedOrders(c, before + [o], isoDate, now), after, bill, isoDate, now);
    FallbackOrderLeavesMarker(c, before, o, isoDate, now);
  }

  /** `get_latest_extension_date` with the cached entry read as evidently intended. */
  function LatestExtensionDateQuery(cache: Option<Cache>, bill: string, collected: seq<ExtensionOrder>,
                                    isoDate: Date -> string, parseIso: string -> Option<Date>)
    : (r: Result<Option<Date>, LatestFailure>)
    ensures LatestExtensionDateAsWritten(cache, bill, collected, isoDate, parseIso).Ok? ==>
              r == LatestExtensionDateAsWritten(cache, bill, collected, isoDate, parseIso)
    ensures r.Err? ==> r.error.NotText?
  {
    var records := CachedOrdersForBill(cache, bill, collected, isoDate);
    if |records| == 0 then Ok(None)
    else match LatestReadable(records, parseIso)
         case Err(bad) => Err(NotText(bad))
         case Ok(d) => Ok(d)
  }

  /** The marker then reads as "no readable extension date". */
  lemma MarkerHasNoDate(c: Cache, bill: string, collected: seq<ExtensionOrder>, now: string,
                        isoDate: Date -> string, parseIso: string -> Option<Date>)
    ensures LatestExtensionDateQuery(Some(AddBillWithExtensions(c, bill, now)), bill, collected, isoDate, parseIso)
         == Ok(None)
  {
    ExtensionEntries(c, bill, "", "", now);
  }

  /** Over collected orders whose dates read back, the loop finds exactly their maximum date. */
  lemma ReadableRecordsMax(mine: seq<ExtensionOrder>, isoDate: Date -> string, parseIso: string -> Option<Date>)
    requires |mine| > 0
    requires forall d :: parseIso(isoDate(d)) == Some(d)
    ensures LatestReadable(Records(mine, isoDate), parseIso) == Ok(Some(MaxDate(mine)))
  {
    var records := Records(mine, isoDate);
    RecordsReadBack(mine, isoDate, parseIso);
    var m := MaxDate(mine);
    var r := LatestReadable(records, parseIso);
    assert r.Ok? && r.value.Some? by {
      assert RecordDate(records[0], parseIso).Some?;
    }
    var v := r.value.value;
    assert v <= m by {
      var k :| 0 <= k < |records| && RecordDate(records[k], parseIso) == Some(v);
      assert mine[k] in mine;
    }
    assert m <= v by {
      var o :| o in mine && o.extensionDate == m;
      var j :| 0 <= j < |mine| && mine[j] == o;
      assert RecordDate(records[j], parseIso) == Some(m);
    }
  }

  /** Each record of a collected order reads back to the order's date, and none holds a non-text date. */
  lemma RecordsReadBack(mine: seq<ExtensionOrder>, isoDate: Date -> string, parseIso: string -> Option<Date>)
    requires forall d :: parseIso(isoDate(d)) == Some(d)
    ensures forall k :: 0 <= k < |mine| ==>
              RecordDate(Records(mine, isoDate)[k], parseIso) == Some(mine[k].extensionDate)
              && !DateNotText(Records(mine, isoDate)[k])
  {
  }

  /**
   * Without a cached entry, and with dates that render and read back, the query
   * agrees with the latest date among the bill's collected orders.
   */
  lemma QueryAgreesWithCollected(cache: Option<Cache>, bill: string, collected: seq<ExtensionOrder>,
                                 isoDate: Date -> string, parseIso: string -> Option<Date>)
    requires CachedEntry(cache, bill).None?
    requires forall d :: parseIso(isoDate(d)) == Some(d)
    ensures LatestExtensionDateQuery(cache, bill, collected, isoDate, parseIso)
         == Ok(LatestExtensionDate(collected, bill))
  {
    var mine := OrdersForBill(collected, bill);
    if |mine| > 0 {
      ReadableRecordsMax(mine, isoDate, parseIso);
    }
  }
}
