/**
 * The per-committee batch: the extension lookup built from the collected orders,
 * the extension date chosen for each bill, the artifact fields for the order, and
 * one result row per bill row, in order.
 */
module Runner {
  import opened Wrappers
  import opened Text
  import opened Models
  import opened Deadlines
  import opened Compliance
  import opened ParserCache
  import opened ExtensionOrders
  import opened Resolver

  // ---------------------------------------------------------------------------
  // The extension lookup
  // ---------------------------------------------------------------------------

  /** `extension_lookup`: every collected order listed under its bill id, in collection order. */
  function GroupByBill(orders: seq<ExtensionOrder>): (r: map<string, seq<ExtensionOrder>>)
    ensures forall b :: b in r ==> |r[b]| > 0
    decreases |orders|
  {
    if |orders| == 0 then map[]
    else
      var m := GroupByBill(orders[..|orders| - 1]);
      var o := orders[|orders| - 1];
      m[o.billId := (if o.billId in m then m[o.billId] else []) + [o]]
  }

  /** The lookup lists exactly the bills with an order, each with all its orders in collection order. */
  lemma {:induction false} GroupByBillLists(orders: seq<ExtensionOrder>)
    ensures forall b :: b in GroupByBill(orders) <==> OrdersForBill(orders, b) != []
    ensures forall b :: b in GroupByBill(orders) ==> GroupByBill(orders)[b] == OrdersForBill(orders, b)
    decreases |orders|
  {
    if |orders| > 0 {
      var init := orders[..|orders| - 1];
      var o := orders[|orders| - 1];
      GroupByBillLists(init);
      assert orders == init + [o];
      var m := GroupByBill(init);
      var g := GroupByBill(orders);
      assert g == m[o.billId := (if o.billId in m then m[o.billId] else []) + [o]];
      forall b
        ensures b in g <==> OrdersForBill(orders, b) != []
        ensures b in g ==> g[b] == OrdersForBill(orders, b)
      {
        OrdersForBillAppend(init, [o], b);
        assert [o][1..] == [];
        if b == o.billId {
          assert OrdersForBill([o], b) == [o];
          assert !(b in m) ==> OrdersForBill(init, b) == [];
        } else {
          assert OrdersForBill([o], b) == [];
        }
      }
    }
  }

  /**
   * `max(orders, key=extension_date)`: the position of the first order with the
   * latest date.
   */
  function LatestIndex(orders: seq<ExtensionOrder>): (i: nat)
    requires |orders| > 0
    ensures i < |orders|
    ensures forall j :: 0 <= j < |orders| ==> orders[j].extensionDate <= orders[i].extensionDate
    ensures forall j :: 0 <= j < i ==> orders[j].extensionDate < orders[i].extensionDate
  {
    if |orders| == 1 then 0
    else
      var k := LatestIndex(orders[1..]) + 1;
      if orders[k].extensionDate > orders[0].extensionDate then k else 0
  }

  /** The extension date a bill's orders grant: the latest order's, or 90 days after the hearing when that order's date was not read. */
  function GrantedUntil(orders: seq<ExtensionOrder>, hearing: Date): (r: Date)
    requires |orders| > 0
    ensures exists o :: o in orders && r == (if o.isDateFallback then hearing + 90 else o.extensionDate)
                        && forall p :: p in orders ==> p.extensionDate <= o.extensionDate
  {
    var latest := orders[LatestIndex(orders)];
    if latest.isDateFallback then hearing + 90 else latest.extensionDate
  }

  // ---------------------------------------------------------------------------
  // The extension date used for one bill
  // ---------------------------------------------------------------------------

  /** Failures that escape the batch. */
  datatype RunFailure =
    | ResolverFailed(crash: Crash)
    | CachedExtensionNotText(billId: string)
    | CachedExtensionKeyMissing(billId: string, key: string)

  /**
   * The extension date for one bill. With checking on, the bill's collected orders
   * decide; with checking off, the cached extension is read, a 1900-01-01 date
   * standing for "90 days after the hearing". `parseIso` is
   * `datetime.fromisoformat(..).date()`, `None` where it raises `ValueError`.
   */
  function ExtensionUntil(checkOn: bool, lookup: map<string, seq<ExtensionOrder>>, cache: Cache,
                          row: BillAtHearing, parseIso: string -> Option<Date>)
    : (r: Result<Option<Date>, RunFailure>)
    requires forall b :: b in lookup ==> |lookup[b]| > 0
    ensures row.billId in lookup ==> r == Ok(Some(GrantedUntil(lookup[row.billId], row.hearingDate)))
    ensures row.billId !in lookup && checkOn ==> r == Ok(None)
    ensures row.billId !in lookup && !checkOn ==>
              match GetExtension(cache, row.billId)
              case None => r == Ok(None)
              case Some(e) =>
                if |e| == 0 || "extension_date" !in e then r == Ok(None)
                else if !e["extension_date"].JStr? then r.Err?
                else match parseIso(e["extension_date"].s)
                     case None => r == Ok(None)
                     case Some(d) => r == Ok(Some(if d == EXTENSION_PLACEHOLDER then row.hearingDate + 90 else d))
  {
    if row.billId in lookup then Ok(Some(GrantedUntil(lookup[row.billId], row.hearingDate)))
    else if checkOn then Ok(None)
    else match GetExtension(cache, row.billId)
         case None => Ok(None)
         case Some(e) =>
           if |e| == 0 then Ok(None)
           else if "extension_date" !in e then Ok(None)
           else match e["extension_date"]
                case JStr(s) =>
                  (match parseIso(s)
                   case None => Ok(None)
                   case Some(d) => Ok(Some(if d == EXTENSION_PLACEHOLDER then row.hearingDate + 90 else d)))
                case _ => Err(CachedExtensionNotText(row.billId))
  }

  /**
   * An order whose date could not be read gives the committee the full 90 days:
   * the effective deadline is the 90-day deadline.
   */
  lemma DateFallbackGivesNinetyDays(orders: seq<ExtensionOrder>, cache: Cache, row: BillAtHearing,
                                    parseIso: string -> Option<Date>)
    requires row.billId in GroupByBill(orders)
    requires GroupByBill(orders)[row.billId][LatestIndex(GroupByBill(orders)[row.billId])].isDateFallback
    ensures var r := ExtensionUntil(true, GroupByBill(orders), cache, row, parseIso);
            r.Ok? && ComputeDeadlines(row.hearingDate, r.value).effective == row.hearingDate + 90
  {
  }

  /** With checking on, the cache is never consulted for the extension date. */
  lemma CheckingOnIgnoresCache(orders: seq<ExtensionOrder>, c1: Cache, c2: Cache, row: BillAtHearing,
                               parseIso: string -> Option<Date>)
    ensures ExtensionUntil(true, GroupByBill(orders), c1, row, parseIso)
         == ExtensionUntil(true, GroupByBill(orders), c2, row, parseIso)
  {
  }

  /**
   * With checking off, an extension cached by the collector is read back as its
   * date, or as 90 days after the hearing when it is the 1900-01-01 placeholder.
   */
  lemma CachedExtensionReadBack(c: Cache, row: BillAtHearing, d: Date, iso: string, url: string, now: string,
                                parseIso: string -> Option<Date>)
    requires parseIso(iso) == Some(d)
    ensures ExtensionUntil(false, map[], SetExtension(c, row.billId, iso, url, now), row, parseIso)
         == Ok(Some(if d == EXTENSION_PLACEHOLDER then row.hearingDate + 90 else d))
  {
    ExtensionEntries(c, row.billId, iso, url, now);
  }

  /** With checking off, the collector's fallback marker gives no extension date. */
  lemma FallbackMarkerGivesNoDate(c: Cache, row: BillAtHearing, now: string, parseIso: string -> Option<Date>)
    ensures ExtensionUntil(false, map[], AddBillWithExtensions(c, row.billId, now), row, parseIso) == Ok(None)
  {
    ExtensionEntries(c, row.billId, "", "", now);
  }

  // ---------------------------------------------------------------------------
  // The order shown with the result row
  // ---------------------------------------------------------------------------

  /** The `extension_date` value of a result row before it is rendered with `str()`. */
  datatype ShownDate = NoDate | OrderDate(date: Date) | CachedDate(value: Json)

  /** The order URL and date shown with a result row. */
  datatype ShownOrder = ShownOrder(url: Option<Json>, date: ShownDate)

  /** `str(extension_date) if extension_date else None`: a falsy cached value shows nothing. */
  function ShownIfTruthy(v: Option<Json>): ShownDate {
    match v
    case Some(j) => if Truthy(j) then CachedDate(j) else NoDate
    case None => NoDate
  }

  /**
   * The artifact fields as written: with checking off, the cached entry's
   * "extension_url" and "extension_date" are read with `[]`, which raises
   * `KeyError` on the entry the collector writes for a URL-only order.
   */
  function ShownOrderAsWritten(checkOn: bool, lookup: map<string, seq<ExtensionOrder>>, cache: Cache, bill: string)
    : (r: Result<ShownOrder, RunFailure>)
    requires forall b :: b in lookup ==> |lookup[b]| > 0
    ensures bill in lookup || checkOn ==> r.Ok?
    ensures r.Err? ==> r.error.CachedExtensionKeyMissing? && r.error.billId == bill
    ensures r.Err? <==> !checkOn && bill !in lookup && GetExtension(cache, bill).Some?
                        && |GetExtension(cache, bill).value| > 0
                        && ("extension_url" !in GetExtension(cache, bill).value
                            || "extension_date" !in GetExtension(cache, bill).value)
  {
    if bill in lookup then
      var latest := lookup[bill][LatestIndex(lookup[bill])];
      Ok(ShownOrder(Some(JStr(latest.url)), OrderDate(latest.extensionDate)))
    else if checkOn then Ok(ShownOrder(None, NoDate))
    else match GetExtension(cache, bill)
         case Some(e) =>
           if |e| == 0 then Ok(ShownOrder(None, NoDate))
           else if "extension_url" !in e then Err(CachedExtensionKeyMissing(bill, "extension_url"))
           else if "extension_date" !in e then Err(CachedExtensionKeyMissing(bill, "extension_date"))
           else Ok(ShownOrder(Some(e["extension_url"]), ShownIfTruthy(Some(e["extension_date"]))))
         case None => Ok(ShownOrder(None, NoDate))
  }

  /** With checking off, reading the artifact fields of a bill whose only order was found through its URL raises `KeyError`. */
  lemma MarkerRaisesKeyError(c: Cache, bill: string, now: string)
    ensures ShownOrderAsWritten(false, map[], AddBillWithExtensions(c, bill, now), bill)
         == Err(CachedExtensionKeyMissing(bill, "extension_url"))
  {
    ExtensionEntries(c, bill, "", "", now);
  }

  /**
   * The artifact fields as evidently intended: missing cached keys show as absent,
   * the way the extension date itself is read a few lines earlier.
   */
  function ShownOrderFor(checkOn: bool, lookup: map<string, seq<ExtensionOrder>>, cache: Cache, bill: string)
    : (r: ShownOrder)
    requires forall b :: b in lookup ==> |lookup[b]| > 0
    ensures bill in lookup ==>
              r.date.OrderDate? && r.url.Some? && r.url.value.JStr?
              && exists o :: o in lookup[bill] && r.date.date == o.extensionDate && r.url.value.s == o.url
                             && forall p :: p in lookup[bill] ==> p.extensionDate <= o.extensionDate
    ensures bill !in lookup && checkOn ==> r == ShownOrder(None, NoDate)
    ensures ShownOrderAsWritten(checkOn, lookup, cache, bill).Ok? ==>
              r == ShownOrderAsWritten(checkOn, lookup, cache, bill).value
  {
    if bill in lookup then
      var latest := lookup[bill][LatestIndex(lookup[bill])];
      ShownOrder(Some(JStr(latest.url)), OrderDate(latest.extensionDate))
    else if checkOn then ShownOrder(None, NoDate)
    else match GetExtension(cache, bill)
         case Some(e) =>
           if |e| == 0 then ShownOrder(None, NoDate)
           else ShownOrder(Field(Some(JObject(e)), "extension_url"), ShownIfTruthy(Field(Some(JObject(e)), "extension_date")))
         case None => ShownOrder(None, NoDate)
  }

  /** The intended fields never fail, and show nothing for the URL-only marker. */
  lemma FallbackMarkerShowsNothing(c: Cache, bill: string, now: string)
    ensures ShownOrderFor(false, map[], AddBillWithExtensions(c, bill, now), bill) == ShownOrder(None, NoDate)
  {
    ExtensionEntries(c, bill, "", "", now);
  }

  // ---------------------------------------------------------------------------
  // Time remaining
  // ---------------------------------------------------------------------------

  /** `_format_time_remaining` on whole seconds. */
  function FormatTimeRemaining(seconds: nat): (r: string)
    ensures seconds < 60 ==> r == NatToString(seconds) + "s"
    ensures 60 <= seconds < 3600 ==>
              exists m: nat, s: nat :: s < 60 && m * 60 + s == seconds
                                      && r == NatToString(m) + "m " + NatToString(s) + "s"
    ensures 3600 <= seconds ==>
              exists h: nat, m: nat :: m < 60 && h * 3600 + m * 60 <= seconds < h * 3600 + m * 60 + 60
                                      && r == NatToString(h) + "h " + NatToString(m) + "m"
  {
    if seconds < 60 then NatToString(seconds) + "s"
    else if seconds < 3600 then NatToString(seconds / 60) + "m " + NatToString(seconds % 60) + "s"
    else NatToString(seconds / 3600) + "h " + NatToString((seconds % 3600) / 60) + "m"
  }

  // ---------------------------------------------------------------------------
  // One bill row, and the batch
  // ---------------------------------------------------------------------------

  /** What the bill page says about one bill (scraped or cached by the status collector). */
  datatype PageFacts = PageFacts(
    reportedOut: bool,
    reportedDate: Option<Date>,
    announcementDate: Option<Date>,
    scheduledHearingDate: Option<Date>)

  /** `build_status_row`: the deadlines for the row's hearing and extension, with the page facts. */
  function BuildStatusRow(row: BillAtHearing, extensionUntil: Option<Date>, facts: PageFacts): (s: BillStatus)
    ensures s.billId == row.billId && s.committeeId == row.committeeId && s.hearingDate == row.hearingDate
    ensures s.deadline60 == row.hearingDate + 60 && s.deadline90 == row.hearingDate + 90
    ensures s.deadline60 <= s.effectiveDeadline <= s.deadline90
    ensures s.extensionUntil == extensionUntil
    ensures s.reportedOut == facts.reportedOut && s.announcementDate == facts.announcementDate
            && s.scheduledHearingDate == facts.scheduledHearingDate
  {
    var d := ComputeDeadlines(row.hearingDate, extensionUntil);
    BillStatus(row.billId, row.committeeId, row.hearingDate, d.d60, d.d90, facts.reportedOut,
               facts.reportedDate, extensionUntil, d.effective, facts.announcementDate, facts.scheduledHearingDate)
  }

  /** One entry of the batch's results. */
  datatype ResultRow = ResultRow(
    billId: string,
    billTitle: Option<string>,
    billUrl: string,
    hearingDate: Date,
    deadline60: Date,
    effectiveDeadline: Date,
    shownOrder: ShownOrder,
    reportedOut: bool,
    summaryPresent: bool,
    summaryUrl: Option<string>,
    votesPresent: bool,
    votesUrl: Option<string>,
    state: ComplianceState,
    reason: string,
    notice: Notice,
    announcementDate: Option<Date>,
    scheduledHearingDate: Option<Date>)

  /** Everything the batch consults besides the rows and the cache. */
  datatype World = World(
    checkOn: bool,
    collected: seq<ExtensionOrder>,
    cfg: Config,
    env: Env,
    facts: string -> PageFacts,
    fetchTitle: string -> Option<string>,
    parseIso: string -> Option<Date>,
    today: Date,
    now: string)

  /** The lookup the batch uses: the collected orders when checking is on, nothing otherwise. */
  function LookupFor(w: World): (r: map<string, seq<ExtensionOrder>>)
    ensures forall b :: b in r ==> |r[b]| > 0
  {
    if w.checkOn then GroupByBill(w.collected) else map[]
  }

  /** The bill title: the cached one, else the fetched one, which is cached when non-empty. */
  function TitleFor(w: World, cache: Cache, row: BillAtHearing): (r: (Option<string>, Cache))
    ensures GetTitle(cache, row.billId).Some? ==> r == (GetTitle(cache, row.billId), cache)
    ensures GetTitle(cache, row.billId).None? ==> r.0 == w.fetchTitle(row.billUrl)
    ensures r.0.Some? && r.0.value != "" ==> GetTitle(r.1, row.billId) == r.0
    ensures forall b, k :: (b != row.billId || k != "title") ==> Entry(r.1, b, k) == Entry(cache, b, k)
  {
    match GetTitle(cache, row.billId)
    case Some(t) => (Some(t), cache)
    case None =>
      match w.fetchTitle(row.billUrl)
      case None => (None, cache)
      case Some(t) =>
        if t == "" then (Some(t), cache)
        else
          TitleRoundTrip(cache, row.billId, t, w.now);
          (Some(t), SetTitle(cache, row.billId, t, w.now))
  }

  /** The result row packed from one bill's status, evidence, verdict, title and shown order. */
  function PackRow(row: BillAtHearing, status: BillStatus, title: Option<string>, shown: ShownOrder,
                   summary: Evidence, votes: Evidence, comp: BillCompliance): ResultRow
  {
    ResultRow(row.billId, title, row.billUrl, status.hearingDate, status.deadline60,
              status.effectiveDeadline, shown, status.reportedOut, summary.present, summary.sourceUrl,
              votes.present, votes.sourceUrl, comp.state, comp.reason,
              ComputeNoticeStatus(status, DEFAULT_MIN_NOTICE_DAYS),
              status.announcementDate, status.scheduledHearingDate)
  }

  /**
   * One bill row as the loop body is written: status, summary (through the
   * unguarded fast path), votes, verdict, title, and the shown order read with
   * `[]` from the cache as it stands after the resolvers and the title lookup.
   */
  function ProcessRow(w: World, cache: Cache, row: BillAtHearing): (r: Result<(ResultRow, Cache), RunFailure>)
    ensures r.Ok? ==> r.value.0.billId == row.billId && r.value.0.billUrl == row.billUrl
                      && r.value.0.hearingDate == row.hearingDate && |r.value.0.reason| > 0
    ensures r.Ok? ==> r.value.0.deadline60 == row.hearingDate + 60
                      && row.hearingDate + 60 <= r.value.0.effectiveDeadline <= row.hearingDate + 90
  {
    var ext :- ExtensionUntil(w.checkOn, LookupFor(w), cache, row, w.parseIso);
    var status := BuildStatusRow(row, ext, w.facts(row.billId));
    match ResolveSummaryAsWritten(w.cfg, w.env, cache, row.billId, w.now)
    case Err(e) => Err(ResolverFailed(e))
    case Ok((summary, c1)) =>
      match ResolveVotes(w.cfg, w.env, c1, row.billId, w.now)
      case Err(e) => Err(ResolverFailed(e))
      case Ok((votes, c2)) =>
        var comp := Classify(row.billId, row.committeeId, status, summary, votes, DEFAULT_MIN_NOTICE_DAYS, w.today);
        var (title, c3) := TitleFor(w, c2, row);
        var shown :- ShownOrderAsWritten(w.checkOn, LookupFor(w), c3, row.billId);
        Ok((PackRow(row, status, title, shown, summary, votes, comp), c3))
  }

  /**
   * One bill row as evidently intended: the summary fast path guarded like the
   * votes one, and missing cached keys shown as absent.
   */
  function ProcessRowIntended(w: World, cache: Cache, row: BillAtHearing)
    : (r: Result<(ResultRow, Cache), RunFailure>)
    ensures r.Ok? ==> r.value.0.billId == row.billId && r.value.0.billUrl == row.billUrl
                      && r.value.0.hearingDate == row.hearingDate && |r.value.0.reason| > 0
    ensures r.Ok? ==> r.value.0.deadline60 == row.hearingDate + 60
                      && row.hearingDate + 60 <= r.value.0.effectiveDeadline <= row.hearingDate + 90
    ensures r.Err? ==> r.error.ResolverFailed? || r.error.CachedExtensionNotText?
  {
    var ext :- ExtensionUntil(w.checkOn, LookupFor(w), cache, row, w.parseIso);
    var status := BuildStatusRow(row, ext, w.facts(row.billId));
    match ResolveSummary(w.cfg, w.env, cache, row.billId, w.now)
    case Err(e) => Err(ResolverFailed(e))
    case Ok((summary, c1)) =>
      match ResolveVotes(w.cfg, w.env, c1, row.billId, w.now)
      case Err(e) => Err(ResolverFailed(e))
      case Ok((votes, c2)) =>
        var comp := Classify(row.billId, row.committeeId, status, summary, votes, DEFAULT_MIN_NOTICE_DAYS, w.today);
        var (title, c3) := TitleFor(w, c2, row);
        var shown := ShownOrderFor(w.checkOn, LookupFor(w), c3, row.billId);
        Ok((PackRow(row, status, title, shown, summary, votes, comp), c3))
  }

  /** Wherever the row as written succeeds, the intended row is the same row. */
  lemma IntendedRowAgrees(w: World, cache: Cache, row: BillAtHearing)
    requires ProcessRow(w, cache, row).Ok?
    ensures ProcessRowIntended(w, cache, row) == ProcessRow(w, cache, row)
  {
    var ext := ExtensionUntil(w.checkOn, LookupFor(w), cache, row, w.parseIso);
    assert ext.Ok?;
    var sa := ResolveSummaryAsWritten(w.cfg, w.env, cache, row.billId, w.now);
    assert sa.Ok?;
    assert ResolveSummary(w.cfg, w.env, cache, row.billId, w.now) == sa;
  }

  /** `res` is a result row for the bill row `row`. */
  predicate RowFor(res: ResultRow, row: BillAtHearing) {
    res.billId == row.billId && res.hearingDate == row.hearingDate && |res.reason| > 0
  }

  /** Runs `step` over the rows in order, threading the cache, and stops at the first failure. */
  function RunEach(step: (Cache, BillAtHearing) -> Result<(ResultRow, Cache), RunFailure>, cache: Cache,
                   rows: seq<BillAtHearing>): (r: Result<(seq<ResultRow>, Cache), RunFailure>)
    ensures r.Ok? ==> |r.value.0| == |rows|
    ensures r.Ok? && (forall c, row :: step(c, row).Ok? ==> RowFor(step(c, row).value.0, row)) ==>
              forall i :: 0 <= i < |rows| ==> RowFor(r.value.0[i], rows[i])
    decreases |rows|
  {
    if |rows| == 0 then Ok(([], cache))
    else
      match step(cache, rows[0])
      case Err(e) => Err(e)
      case Ok((first, c1)) =>
        match RunEach(step, c1, rows[1..])
        case Err(e) => Err(e)
        case Ok((rest, c2)) =>
          var out := [first] + rest;
          assert forall i :: 1 <= i < |rows| ==> out[i] == rest[i - 1] && rows[i] == rows[1..][i - 1];
          Ok((out, c2))
  }

  /** The loop body as written, as a step over the cache. */
  function Step(w: World): (Cache, BillAtHearing) -> Result<(ResultRow, Cache), RunFailure> {
    (c, row) => ProcessRow(w, c, row)
  }

  /** The evidently intended loop body, as a step over the cache. */
  function StepIntended(w: World): (Cache, BillAtHearing) -> Result<(ResultRow, Cache), RunFailure> {
    (c, row) => ProcessRowIntended(w, c, row)
  }

  /** The batch as written: one result row per bill row, in order, the cache threaded through. */
  function RunRows(w: World, cache: Cache, rows: seq<BillAtHearing>)
    : (r: Result<(seq<ResultRow>, Cache), RunFailure>)
    ensures r.Ok? ==> |r.value.0| == |rows|
    ensures r.Ok? ==> forall i :: 0 <= i < |rows| ==> RowFor(r.value.0[i], rows[i])
  {
    assert forall c, row :: Step(w)(c, row).Ok? ==> RowFor(Step(w)(c, row).value.0, row);
    RunEach(Step(w), cache, rows)
  }

  /** The batch as evidently intended: the same loop over the intended row. */
  function RunRowsIntended(w: World, cache: Cache, rows: seq<BillAtHearing>)
    : (r: Result<(seq<ResultRow>, Cache), RunFailure>)
    ensures r.Ok? ==> |r.value.0| == |rows|
    ensures r.Ok? ==> forall i :: 0 <= i < |rows| ==> RowFor(r.value.0[i], rows[i])
  {
    assert forall c, row :: StepIntended(w)(c, row).Ok? ==> RowFor(StepIntended(w)(c, row).value.0, row);
    RunEach(StepIntended(w), cache, rows)
  }

  /** A batch over two runs of rows is the first run's results followed by the second's. */
  lemma {:induction false} RunEachAppend(step: (Cache, BillAtHearing) -> Result<(ResultRow, Cache), RunFailure>,
                                         cache: Cache, a: seq<BillAtHearing>, b: seq<BillAtHearing>)
    requires RunEach(step, cache, a).Ok?
    ensures var ra := RunEach(step, cache, a).value;
            RunEach(step, cache, a + b) ==
              match RunEach(step, ra.1, b)
              case Ok((rb, c)) => Ok((ra.0 + rb, c))
              case Err(e) => Err(e)
    decreases |a|
  {
    if |a| == 0 {
      assert a + b == b;
      match RunEach(step, cache, b)
      case Ok((rb, c)) =>
        assert [] + rb == rb;
      case Err(e) =>
    } else {
      assert (a + b)[0] == a[0] && (a + b)[1..] == a[1..] + b;
      var first := step(cache, a[0]).value.0;
      var c1 := step(cache, a[0]).value.1;
      RunEachAppend(step, c1, a[1..], b);
      var rest := RunEach(step, c1, a[1..]).value;
      assert RunEach(step, cache, a).value == ([first] + rest.0, rest.1);
      match RunEach(step, rest.1, b)
      case Ok((rb, c)) =>
        assert [first] + (rest.0 + rb) == ([first] + rest.0) + rb;
      case Err(e) =>
    }
  }

  /** Each row's verdict is the classifier's, on the status built for it. */
  lemma RowVerdictIsClassified(w: World, cache: Cache, row: BillAtHearing)
    requires ProcessRow(w, cache, row).Ok?
    ensures var res := ProcessRow(w, cache, row).value.0;
            exists ext, summary, votes ::
              var status := BuildStatusRow(row, ext, w.facts(row.billId));
              var comp := Classify(row.billId, row.committeeId, status, summary, votes, DEFAULT_MIN_NOTICE_DAYS, w.today);
              res.state == comp.state && res.reason == comp.reason
              && res.summaryPresent == summary.present && res.votesPresent == votes.present
  {
    var ext := ExtensionUntil(w.checkOn, LookupFor(w), cache, row, w.parseIso).value;
    var summary := ResolveSummaryAsWritten(w.cfg, w.env, cache, row.billId, w.now).value.0;
    var c1 := ResolveSummaryAsWritten(w.cfg, w.env, cache, row.billId, w.now).value.1;
    var votes := ResolveVotes(w.cfg, w.env, c1, row.billId, w.now).value.0;
    var status := BuildStatusRow(row, ext, w.facts(row.billId));
    var comp := Classify(row.billId, row.committeeId, status, summary, votes, DEFAULT_MIN_NOTICE_DAYS, w.today);
    assert ProcessRow(w, cache, row).value.0.state == comp.state;
  }

  // ---------------------------------------------------------------------------
  // What stops the batch
  // ---------------------------------------------------------------------------

  /** The bill's cached extension is the URL-only marker: a non-empty object with neither date nor URL. */
  predicate HoldsMarker(c: Cache, bill: string) {
    GetExtension(c, bill).Some? && |GetExtension(c, bill).value| > 0
    && "extension_url" !in GetExtension(c, bill).value && "extension_date" !in GetExtension(c, bill).value
  }

  /** The collector leaves the marker for a bill whose order was found only through its URL. */
  lemma MarkerWritten(c: Cache, bill: string, now: string)
    ensures HoldsMarker(AddBillWithExtensions(c, bill, now), bill)
  {
    ExtensionEntries(c, bill, "", "", now);
  }

  /** Resolving a bill's evidence and looking up its title never touch its "extensions" entry. */
  lemma RowKeepsExtensions(w: World, cache: Cache, row: BillAtHearing)
    requires ResolveSummaryAsWritten(w.cfg, w.env, cache, row.billId, w.now).Ok?
    requires var c1 := ResolveSummaryAsWritten(w.cfg, w.env, cache, row.billId, w.now).value.1;
             ResolveVotes(w.cfg, w.env, c1, row.billId, w.now).Ok?
    ensures var c1 := ResolveSummaryAsWritten(w.cfg, w.env, cache, row.billId, w.now).value.1;
            var c2 := ResolveVotes(w.cfg, w.env, c1, row.billId, w.now).value.1;
            GetExtension(TitleFor(w, c2, row).1, row.billId) == GetExtension(cache, row.billId)
  {
    var c1 := ResolveSummaryAsWritten(w.cfg, w.env, cache, row.billId, w.now).value.1;
    ResolveFrame(Summary, w.cfg, w.env, cache, row.billId, w.now);
    var c2 := ResolveVotes(w.cfg, w.env, c1, row.billId, w.now).value.1;
    ResolveFrame(Votes, w.cfg, w.env, c1, row.billId, w.now);
    assert Entry(c2, row.billId, "extensions") == Entry(cache, row.billId, "extensions");
  }

  /**
   * With checking off, a bill holding the marker never yields a row as written:
   * either a resolver raises first, or `cached_extension["extension_url"]` does.
   */
  lemma MarkerStopsRow(w: World, cache: Cache, row: BillAtHearing)
    requires !w.checkOn && HoldsMarker(cache, row.billId)
    ensures ProcessRow(w, cache, row).Err?
    ensures ProcessRow(w, cache, row).error.ResolverFailed?
            || ProcessRow(w, cache, row).error == CachedExtensionKeyMissing(row.billId, "extension_url")
  {
    assert ExtensionUntil(w.checkOn, LookupFor(w), cache, row, w.parseIso) == Ok(None);
    var sa := ResolveSummaryAsWritten(w.cfg, w.env, cache, row.billId, w.now);
    if sa.Ok? {
      var c1 := sa.value.1;
      var v := ResolveVotes(w.cfg, w.env, c1, row.billId, w.now);
      if v.Ok? {
        RowKeepsExtensions(w, cache, row);
        var c3 := TitleFor(w, v.value.1, row).1;
        assert ShownOrderAsWritten(w.checkOn, LookupFor(w), c3, row.billId)
            == Err(CachedExtensionKeyMissing(row.billId, "extension_url"));
      }
    }
  }

  /** The intended row never fails on the marker: only a resolver or a non-text date can stop it. */
  lemma MarkerKeepsIntendedRow(w: World, cache: Cache, row: BillAtHearing)
    requires !w.checkOn && HoldsMarker(cache, row.billId)
    ensures ProcessRowIntended(w, cache, row).Err? ==> ProcessRowIntended(w, cache, row).error.ResolverFailed?
  {
    assert ExtensionUntil(w.checkOn, LookupFor(w), cache, row, w.parseIso) == Ok(None);
  }

  /** A confirmed summary module that is gone stops the row as written with the import failure. */
  lemma StaleSummaryStopsRow(w: World, cache: Cache, row: BillAtHearing)
    requires ExtensionUntil(w.checkOn, LookupFor(w), cache, row, w.parseIso).Ok?
    requires HasConfirmedCache(cache, row.billId, Summary)
    requires GetParser(cache, row.billId, "summary").value !in w.env.registry
    ensures ProcessRow(w, cache, row) == Err(ResolverFailed(ImportFailed(GetParser(cache, row.billId, "summary").value)))
  {
  }

  /** Once the rows before it succeed, a row that fails stops the whole batch with its failure. */
  lemma RowFailureStopsBatch(w: World, cache: Cache, done: seq<BillAtHearing>, row: BillAtHearing,
                             rest: seq<BillAtHearing>)
    requires RunRows(w, cache, done).Ok?
    requires ProcessRow(w, RunRows(w, cache, done).value.1, row).Err?
    ensures RunRows(w, cache, done + [row] + rest) == Err(ProcessRow(w, RunRows(w, cache, done).value.1, row).error)
  {
    assert done + [row] + rest == done + ([row] + rest);
    RunEachAppend(Step(w), cache, done, [row] + rest);
    assert ([row] + rest)[0] == row;
  }

  /**
   * With checking off, a bill whose cached extension is the URL-only marker stops
   * the whole batch as written: no row after it is produced.
   */
  lemma FallbackMarkerStopsBatch(w: World, cache: Cache, done: seq<BillAtHearing>, row: BillAtHearing,
                                 rest: seq<BillAtHearing>)
    requires !w.checkOn
    requires RunRows(w, cache, done).Ok? && HoldsMarker(RunRows(w, cache, done).value.1, row.billId)
    ensures RunRows(w, cache, done + [row] + rest).Err?
  {
    MarkerStopsRow(w, RunRows(w, cache, done).value.1, row);
    RowFailureStopsBatch(w, cache, done, row, rest);
  }
}
