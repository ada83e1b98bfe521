/**
 * Extension orders: reading bill ids, committee and order type out of an order
 * page, filtering the collected orders by bill, the latest date among them, and
 * the cache writes made while collecting.
 */
module ExtensionOrders {
  import opened Wrappers
  import opened Text
  import opened Models
  import opened ParserCache

  // ---------------------------------------------------------------------------
  // Filtering and the latest date
  // ---------------------------------------------------------------------------

  /** `get_extension_orders_for_bill`: the orders for `bill`, in collection order. */
  function OrdersForBill(orders: seq<ExtensionOrder>, bill: string): (r: seq<ExtensionOrder>)
    ensures forall o :: o in r <==> o in orders && o.billId == bill
    ensures |r| <= |orders|
  {
    if |orders| == 0 then []
    else (if orders[0].billId == bill then [orders[0]] else []) + OrdersForBill(orders[1..], bill)
  }

  /** Filtering distributes over concatenation, so collection order is kept. */
  lemma {:induction false} OrdersForBillAppend(a: seq<ExtensionOrder>, b: seq<ExtensionOrder>, bill: string)
    ensures OrdersForBill(a + b, bill) == OrdersForBill(a, bill) + OrdersForBill(b, bill)
  {
    if |a| > 0 {
      OrdersForBillAppend(a[1..], b, bill);
      assert (a + b)[0] == a[0] && (a + b)[1..] == a[1..] + b;
      var h := if a[0].billId == bill then [a[0]] else [];
      calc {
        OrdersForBill(a + b, bill);
        h + OrdersForBill(a[1..] + b, bill);
        h + (OrdersForBill(a[1..], bill) + OrdersForBill(b, bill));
        (h + OrdersForBill(a[1..], bill)) + OrdersForBill(b, bill);
        OrdersForBill(a, bill) + OrdersForBill(b, bill);
      }
    } else {
      assert a + b == b;
    }
  }

  /** The largest extension date of a non-empty list of orders. */
  function MaxDate(orders: seq<ExtensionOrder>): (d: Date)
    requires |orders| > 0
    ensures forall o :: o in orders ==> o.extensionDate <= d
    ensures exists o :: o in orders && o.extensionDate == d
  {
    if |orders| == 1 then orders[0].extensionDate
    else
      var rest := MaxDate(orders[1..]);
      assert forall o :: o in orders[1..] ==> o in orders;
      if orders[0].extensionDate >= rest then orders[0].extensionDate else rest
  }

  /** `get_latest_extension_date`: the latest date among the orders for `bill`, if there are any. */
  function LatestExtensionDate(orders: seq<ExtensionOrder>, bill: string): (r: Option<Date>)
    ensures r.None? <==> forall o :: o in orders ==> o.billId != bill
    ensures r.Some? ==> exists o :: o in orders && o.billId == bill && o.extensionDate == r.value
    ensures r.Some? ==> forall o :: o in orders && o.billId == bill ==> o.extensionDate <= r.value
  {
    var mine := OrdersForBill(orders, bill);
    if |mine| == 0 then None
    else
      assert mine[0] in mine;
      Some(MaxDate(mine))
  }

  // ---------------------------------------------------------------------------
  // Bill ids from the order text
  // ---------------------------------------------------------------------------

  /**
   * One match of the six document-number patterns: the chamber word and the number
   * group, reported pattern by pattern and, within a pattern, left to right.
   */
  datatype DocMatch = DocMatch(chamber: string, numbers: string)

  /** The id prefix for a chamber word; another spelling that the case-insensitive regex admits gives none. */
  function ChamberPrefix(chamber: string): (r: Option<char>)
    ensures r.Some? ==> r.value in {'H', 'S', 'J'}
    ensures r.Some? <==> Lower(chamber) in {"house", "senate", "joint"}
  {
    var c := Lower(chamber);
    if c == "house" then Some('H')
    else if c == "senate" then Some('S')
    else if c == "joint" then Some('J')
    else None
  }

  /** The length of the leading whitespace run of `s`. */
  function SpaceRun(s: string): (n: nat)
    ensures n <= |s|
    ensures forall i :: 0 <= i < n ==> IsSpace(s[i])
    ensures n < |s| ==> !IsSpace(s[n])
  {
    if |s| > 0 && IsSpace(s[0]) then 1 + SpaceRun(s[1..]) else 0
  }

  /** The length of a match of `,\s*|\s+and\s+` starting at `i`, or 0. */
  function SeparatorAt(s: string, i: nat): (k: nat)
    requires i < |s|
    ensures i + k <= |s|
    ensures k > 0 ==> s[i] == ',' || IsSpace(s[i])
  {
    if s[i] == ',' then 1 + SpaceRun(s[i + 1..])
    else if IsSpace(s[i]) then
      var w := SpaceRun(s[i..]);
      var j := i + w;
      if j + 3 < |s| && s[j..j + 3] == "and" && IsSpace(s[j + 3]) then w + 3 + SpaceRun(s[j + 3..])
      else 0
    else 0
  }

  /** `re.split(r",\s*|\s+and\s+", s[start:])`, scanning from `i`. */
  function SplitListFrom(s: string, start: nat, i: nat): (r: seq<string>)
    requires start <= i <= |s|
    ensures |r| > 0
    decreases |s| - i
  {
    if i == |s| then [s[start..]]
    else
      var k := SeparatorAt(s, i);
      if k > 0 then [s[start..i]] + SplitListFrom(s, i + k, i + k)
      else SplitListFrom(s, start, i + 1)
  }

  function SplitNumberList(s: string): seq<string> {
    SplitListFrom(s, 0, 0)
  }

  /** The stripped pieces that are all digits, in order. */
  function DigitPieces(pieces: seq<string>): (r: seq<string>)
    ensures forall k :: 0 <= k < |r| ==> IsDigits(r[k])
    ensures |r| <= |pieces|
  {
    if |pieces| == 0 then []
    else (if IsDigits(Strip(pieces[0])) then [Strip(pieces[0])] else []) + DigitPieces(pieces[1..])
  }

  /** The document numbers of one match: a list is split and filtered, a single number kept if it is digits. */
  function DocNumbers(numbers: string): (r: seq<string>)
    ensures forall k :: 0 <= k < |r| ==> IsDigits(r[k])
  {
    if Contains(numbers, ",") || Contains(numbers, " and ") then DigitPieces(SplitNumberList(numbers))
    else DigitPieces([numbers])
  }

  /** A bill id as the order text yields it: a chamber letter followed by digits. */
  predicate IsChamberBillId(id: string) {
    |id| >= 2 && id[0] in {'H', 'S', 'J'} && IsDigits(id[1..])
  }

  /** Each number prefixed with the chamber letter. */
  function Prefixed(prefix: char, ns: seq<string>): (r: seq<string>)
    requires prefix in {'H', 'S', 'J'}
    requires forall k :: 0 <= k < |ns| ==> IsDigits(ns[k])
    ensures |r| == |ns|
    ensures forall k :: 0 <= k < |r| ==> r[k] == [prefix] + ns[k] && IsChamberBillId(r[k])
  {
    if |ns| == 0 then []
    else
      assert IsDigits(ns[0]);
      var id := [prefix] + ns[0];
      assert id[0] == prefix && id[1..] == ns[0];
      [id] + Prefixed(prefix, ns[1..])
  }

  /** The ids from one match. */
  function MatchIds(m: DocMatch): (r: seq<string>)
    ensures forall k :: 0 <= k < |r| ==> IsChamberBillId(r[k])
  {
    match ChamberPrefix(m.chamber)
    case None => []
    case Some(p) => Prefixed(p, DocNumbers(m.numbers))
  }

  /** `_extract_bill_numbers_from_text`: the ids of every match, in match order. */
  function ExtractBillNumbers(ms: seq<DocMatch>): seq<string> {
    if |ms| == 0 then [] else MatchIds(ms[0]) + ExtractBillNumbers(ms[1..])
  }

  /** Every id read from an order is a chamber letter followed by digits. */
  lemma {:induction false} ExtractedIdsWellFormed(ms: seq<DocMatch>)
    ensures forall k :: 0 <= k < |ExtractBillNumbers(ms)| ==> IsChamberBillId(ExtractBillNumbers(ms)[k])
  {
    if |ms| > 0 {
      ExtractedIdsWellFormed(ms[1..]);
      var h := MatchIds(ms[0]);
      var t := ExtractBillNumbers(ms[1..]);
      assert forall k :: |h| <= k < |h| + |t| ==> (h + t)[k] == t[k - |h|];
    }
  }

  /** Matches contribute their ids in order, one after the other. */
  lemma {:induction false} ExtractBillNumbersAppend(a: seq<DocMatch>, b: seq<DocMatch>)
    ensures ExtractBillNumbers(a + b) == ExtractBillNumbers(a) + ExtractBillNumbers(b)
  {
    if |a| > 0 {
      ExtractBillNumbersAppend(a[1..], b);
      ExtractBillNumbersStep(a, b);
    } else {
      assert a + b == b;
    }
  }

  lemma ExtractBillNumbersStep(a: seq<DocMatch>, b: seq<DocMatch>)
    requires |a| > 0
    ensures ExtractBillNumbers(a + b) == MatchIds(a[0]) + ExtractBillNumbers(a[1..] + b)
  {
    assert (a + b)[0] == a[0] && (a + b)[1..] == a[1..] + b;
  }

  /** A single number in a recognised chamber gives exactly one id. */
  lemma SingleDocumentNumber(chamber: string, digits: string)
    requires ChamberPrefix(chamber).Some? && IsDigits(digits)
    requires !Contains(digits, ",") && !Contains(digits, " and ")
    ensures MatchIds(DocMatch(chamber, digits)) == [[ChamberPrefix(chamber).value] + digits]
  {
    assert !IsSpace(digits[0]) && !IsSpace(digits[|digits| - 1]);
    assert LStrip(digits) == digits;
    assert RStrip(digits) == digits;
    assert [digits][1..] == [];
    assert DigitPieces([digits]) == [digits];
  }

  // ---------------------------------------------------------------------------
  // The bill id in the order URL
  // ---------------------------------------------------------------------------

  /** The length of the leading ASCII digit run of `s`. */
  function DigitRun(s: string): (n: nat)
    ensures n <= |s|
    ensures forall i :: 0 <= i < n ==> IsDigit(s[i])
    ensures n < |s| ==> !IsDigit(s[n])
  {
    if |s| > 0 && IsDigit(s[0]) then 1 + DigitRun(s[1..]) else 0
  }

  /** The id of a match of `/Bills/\d+/([HS]\d+)/(?:House|Senate)/Order/Text` starting at `i`. */
  function OrderUrlMatchAt(u: string, i: nat): (r: Option<string>)
    requires i <= |u|
    ensures r.Some? ==> |r.value| >= 2 && r.value[0] in {'H', 'S'} && IsDigits(r.value[1..])
  {
    var t := u[i..];
    if !StartsWith(t, "/Bills/") then None
    else
      var a := t[7..];
      var y := DigitRun(a);
      if y == 0 || y == |a| || a[y] != '/' then None
      else
        var b := a[y + 1..];
        if |b| == 0 || (b[0] != 'H' && b[0] != 'S') then None
        else
          var n := DigitRun(b[1..]);
          var id := b[..n + 1];
          var after := b[n + 1..];
          if n == 0 then None
          else if StartsWith(after, "/House/Order/Text") || StartsWith(after, "/Senate/Order/Text") then
            assert id[1..] == b[1..][..n];
            Some(id)
          else None
  }

  function OrderUrlSearch(u: string, i: nat): (r: Option<string>)
    requires i <= |u|
    ensures r.Some? ==> |r.value| >= 2 && r.value[0] in {'H', 'S'} && IsDigits(r.value[1..])
    decreases |u| - i
  {
    match OrderUrlMatchAt(u, i)
    case Some(id) => Some(id)
    case None => if i == |u| then None else OrderUrlSearch(u, i + 1)
  }

  /** `_extract_bill_id_from_order_url`: the id of the leftmost match, if any. */
  function ExtractBillIdFromOrderUrl(u: string): (r: Option<string>)
    ensures r.Some? ==> |r.value| >= 2 && r.value[0] in {'H', 'S'} && IsDigits(r.value[1..])
  {
    OrderUrlSearch(u, 0)
  }

  /** The order URL the collector builds for a bill id is read back to that id. */
  lemma OrderUrlRoundTrip(y: string, id: string, chamber: string)
    requires IsDigits(y)
    requires |id| >= 2 && id[0] in {'H', 'S'} && IsDigits(id[1..])
    requires chamber in {"House", "Senate"}
    ensures ExtractBillIdFromOrderUrl("/Bills/" + y + "/" + id + "/" + chamber + "/Order/Text") == Some(id)
  {
    var rest := "/" + chamber + "/Order/Text";
    var b := id + rest;
    var a := y + ("/" + b);
    ConcatParts("/Bills/", a);
    YearPart(y, b);
    IdPart(id, rest);
    ChamberTail(chamber);
    OrderUrlMatchIntro("/Bills/" + a, a, |y|, b, |id| - 1);
    OrderUrlShape(y, id, chamber);
  }

  /** After "/Bills/": the year's digits, then a slash, then the rest. */
  lemma YearPart(y: string, b: string)
    requires IsDigits(y)
    ensures var a := y + ("/" + b);
      0 < |y| < |a| && DigitRun(a) == |y| && a[|y|] == '/' && a[|y| + 1..] == b
  {
    DigitRunOf(y, "/" + b);
    ConcatParts(y, "/" + b);
    ConcatParts("/", b);
  }

  /** The bill id's chamber letter and digits, followed by the rest of the path. */
  lemma IdPart(id: string, rest: string)
    requires |id| >= 2 && id[0] in {'H', 'S'} && IsDigits(id[1..])
    requires |rest| > 0 && rest[0] == '/'
    ensures var b := id + rest;
      && 0 < |id| - 1 < |b| && (b[0] == 'H' || b[0] == 'S') && DigitRun(b[1..]) == |id| - 1
      && b[|id|..] == rest && b[..|id|] == id
  {
    var b := id + rest;
    assert b[1..] == id[1..] + rest;
    DigitRunOf(id[1..], rest);
    ConcatParts(id, rest);
  }

  lemma OrderUrlShape(y: string, id: string, chamber: string)
    ensures "/Bills/" + y + "/" + id + "/" + chamber + "/Order/Text"
         == "/Bills/" + (y + ("/" + (id + ("/" + chamber + "/Order/Text"))))
  {
  }

  lemma ConcatParts(p: string, q: string)
    ensures StartsWith(p + q, p) && (p + q)[..|p|] == p && (p + q)[|p|..] == q
  {
  }

  lemma ChamberTail(chamber: string)
    requires chamber in {"House", "Senate"}
    ensures StartsWith("/" + chamber + "/Order/Text", "/House/Order/Text")
         || StartsWith("/" + chamber + "/Order/Text", "/Senate/Order/Text")
  {
    var rest := "/" + chamber + "/Order/Text";
    assert rest[..|rest|] == rest;
    if chamber == "House" {
      assert rest == "/House/Order/Text";
    } else {
      assert rest == "/Senate/Order/Text";
    }
  }

  /** The steps of one match of the order-URL pattern at the start of `u`. */
  lemma OrderUrlMatchIntro(u: string, a: string, y: nat, b: string, n: nat)
    requires StartsWith(u, "/Bills/") && u[7..] == a
    requires 0 < y < |a| && DigitRun(a) == y && a[y] == '/' && a[y + 1..] == b
    requires 0 < n < |b| && (b[0] == 'H' || b[0] == 'S') && DigitRun(b[1..]) == n
    requires StartsWith(b[n + 1..], "/House/Order/Text") || StartsWith(b[n + 1..], "/Senate/Order/Text")
    ensures OrderUrlSearch(u, 0) == Some(b[..n + 1])
  {
    assert u[0..] == u;
  }

  /** A run of digits followed by a non-digit is read to its end. */
  lemma {:induction false} DigitRunOf(d: string, rest: string)
    requires forall i :: 0 <= i < |d| ==> IsDigit(d[i])
    requires |rest| > 0 && !IsDigit(rest[0])
    ensures DigitRun(d + rest) == |d|
    decreases |d|
  {
    var s := d + rest;
    if |d| > 0 {
      assert s[0] == d[0];
      assert s[1..] == d[1..] + rest;
      forall i | 0 <= i < |d[1..]|
        ensures IsDigit(d[1..][i])
      {
        assert d[1..][i] == d[i + 1];
      }
      DigitRunOf(d[1..], rest);
    } else {
      assert s == rest;
    }
  }

  // ---------------------------------------------------------------------------
  // Committee and order type
  // ---------------------------------------------------------------------------

  /** Committee names the collector knows, with their ids. */
  const COMMITTEES: seq<(string, string)> := [
    ("Telecommunications, Utilities, and Energy", "J33"),
    ("Environment and Natural Resources", "J16"),
    ("Education", "J37"),
    ("Housing", "J39"),
    ("Transportation", "J40"),
    ("Economic Development and " + "Emerging Technologies", "J41"),
    ("Public Health", "J42")
  ]

  /** `committee_mapping.get(name)`. */
  function LookupCommittee(name: string, table: seq<(string, string)>): (r: Option<string>)
    ensures r.Some? ==> exists k :: 0 <= k < |table| && table[k].0 == name && table[k].1 == r.value
    ensures r.None? ==> forall k :: 0 <= k < |table| ==> table[k].0 != name
  {
    if |table| == 0 then None
    else if table[0].0 == name then Some(table[0].1)
    else LookupCommittee(name, table[1..])
  }

  const COMMITTEE_ON: string := "committee on "

  /** The case-insensitive text "committee on " starts at `i`, followed by a character other than ',' and newline. */
  predicate CommitteeMatchAt(text: string, i: nat) {
    i + |COMMITTEE_ON| < |text| && Lower(text[i..i + |COMMITTEE_ON|]) == COMMITTEE_ON
    && text[i + |COMMITTEE_ON|] != ',' && text[i + |COMMITTEE_ON|] != '\n'
  }

  /** The leftmost match of `committee on ([^,\n]+)` (the first of the three patterns; the other two only match where it does). */
  function CommitteeMatchFrom(text: string, i: nat): (r: Option<nat>)
    ensures r.Some? ==> i <= r.value && CommitteeMatchAt(text, r.value)
    ensures r.Some? ==> forall j :: i <= j < r.value ==> !CommitteeMatchAt(text, j)
    ensures r.None? ==> forall j :: i <= j ==> !CommitteeMatchAt(text, j)
    decreases |text| - i
  {
    if i >= |text| then None
    else if CommitteeMatchAt(text, i) then Some(i)
    else CommitteeMatchFrom(text, i + 1)
  }

  /** The length of the leading run without ',' or newline. */
  function NameRun(s: string): (n: nat)
    ensures n <= |s|
    ensures forall i :: 0 <= i < n ==> s[i] != ',' && s[i] != '\n'
  {
    if |s| > 0 && s[0] != ',' && s[0] != '\n' then 1 + NameRun(s[1..]) else 0
  }

  /** The captured committee name: the text after "committee on " up to the next ',' or newline. */
  function CommitteeCapture(text: string): (r: Option<string>)
    ensures r.Some? ==> forall i :: 0 <= i < |r.value| ==> r.value[i] != ','
  {
    match CommitteeMatchFrom(text, 0)
    case None => None
    case Some(i) =>
      var rest := text[i + |COMMITTEE_ON|..];
      Some(rest[..NameRun(rest)])
  }

  /** `_extract_committee_from_text` as written: the stripped capture looked up exactly. */
  function CommitteeIdFromTextAsWritten(text: string): (r: Option<string>)
    ensures r.Some? ==> exists k :: 0 <= k < |COMMITTEES| && COMMITTEES[k].1 == r.value
    ensures CommitteeCapture(text).None? ==> r.None?
  {
    match CommitteeCapture(text)
    case None => None
    case Some(name) => LookupCommittee(Strip(name), COMMITTEES)
  }

  /** Stripping never introduces a character. */
  lemma StripKeepsOut(s: string, c: char)
    requires c !in s
    ensures c !in Strip(s)
  {
    var l := LStrip(s);
    forall i | 0 <= i < |l|
      ensures l[i] != c
    {
      assert l[i] == s[|s| - |l| + i];
    }
    var r := RStrip(l);
    forall i | 0 <= i < |r|
      ensures r[i] != c
    {
      assert r[i] == l[i];
    }
  }

  /** No text ever maps to J33: its name contains a comma, which the capture stops at. */
  lemma AsWrittenNeverJ33(text: string)
    ensures CommitteeIdFromTextAsWritten(text) != Some("J33")
  {
    match CommitteeCapture(text)
    case None =>
    case Some(name) =>
      StripKeepsOut(name, ',');
      var s := Strip(name);
      assert COMMITTEES[0].0[18] == ',';
      assert s != COMMITTEES[0].0;
      assert forall k :: 0 < k < |COMMITTEES| ==> COMMITTEES[k].1 != "J33";
  }

  /** The first table entry whose name `s` starts with. */
  function LookupCommitteePrefix(s: string, table: seq<(string, string)>): (r: Option<string>)
    ensures r.Some? ==> exists k :: 0 <= k < |table| && StartsWith(s, table[k].0) && table[k].1 == r.value
    ensures r.None? ==> forall k :: 0 <= k < |table| ==> !StartsWith(s, table[k].0)
  {
    if |table| == 0 then None
    else if StartsWith(s, table[0].0) then Some(table[0].1)
    else LookupCommitteePrefix(s, table[1..])
  }

  /**
   * `_extract_committee_from_text` as evidently intended: the text after the
   * leftmost "committee on " is matched against the known names, commas included.
   */
  function CommitteeIdFromText(text: string): (r: Option<string>)
    ensures r.Some? ==> exists k :: 0 <= k < |COMMITTEES| && COMMITTEES[k].1 == r.value
    ensures CommitteeMatchFrom(text, 0).None? ==> r.None?
  {
    match CommitteeMatchFrom(text, 0)
    case None => None
    case Some(i) => LookupCommitteePrefix(LStrip(text[i + |COMMITTEE_ON|..]), COMMITTEES)
  }

  /** The first two characters of each known name, in table order. */
  const COMMITTEE_HEADS: seq<string> := ["Te", "En", "Ed", "Ho", "Tr", "Ec", "Pu"]

  lemma CommitteeHead(k: nat)
    requires k < |COMMITTEES|
    ensures |COMMITTEES[k].0| >= 2 && COMMITTEES[k].0[..2] == COMMITTEE_HEADS[k]
    ensures IsUpperLetter(COMMITTEES[k].0[0])
  {
    var n := COMMITTEES[k].0;
    if k == 0 {
      assert n[0] == 'T' && n[1] == 'e';
    } else if k == 1 {
      assert n[0] == 'E' && n[1] == 'n';
    } else if k == 2 {
      assert n[0] == 'E' && n[1] == 'd';
    } else if k == 3 {
      assert n[0] == 'H' && n[1] == 'o';
    } else if k == 4 {
      assert n[0] == 'T' && n[1] == 'r';
    } else if k == 5 {
      assert n[0] == 'E' && n[1] == 'c';
    } else {
      assert n[0] == 'P' && n[1] == 'u';
    }
    assert n[..2] == [n[0], n[1]];
  }

  /** No two known names share their first two characters. */
  lemma CommitteeHeadsDistinct(a: nat, b: nat)
    requires a < |COMMITTEES| && b < |COMMITTEES| && a != b
    ensures COMMITTEES[a].0[..2] != COMMITTEES[b].0[..2]
  {
    CommitteeHead(a);
    CommitteeHead(b);
  }

  lemma PrefixLookupFinds(s: string, table: seq<(string, string)>, k: nat)
    requires k < |table| && StartsWith(s, table[k].0)
    requires forall a :: 0 <= a < k ==> !StartsWith(s, table[a].0)
    ensures LookupCommitteePrefix(s, table) == Some(table[k].1)
  {
    if k > 0 {
      PrefixLookupFinds(s, table[1..], k - 1);
    }
  }

  /** Every known committee is recognised when an order names it, whatever follows. */
  lemma EveryCommitteeRecognised(k: nat, tail: string)
    requires k < |COMMITTEES|
    ensures CommitteeIdFromText("Committee on " + COMMITTEES[k].0 + tail) == Some(COMMITTEES[k].1)
  {
    var name := COMMITTEES[k].0;
    var rest := name + tail;
    var text := "Committee on " + rest;
    assert text == "Committee on " + COMMITTEES[k].0 + tail;
    CommitteeHead(k);
    ConcatParts("Committee on ", rest);
    assert Lower("Committee on ") == COMMITTEE_ON;
    assert text[|COMMITTEE_ON|] == name[0];
    assert CommitteeMatchAt(text, 0);
    assert !IsSpace(rest[0]);
    assert LStrip(rest) == rest;
    ConcatParts(name, tail);
    forall a | 0 <= a < k
      ensures !StartsWith(rest, COMMITTEES[a].0)
    {
      var other := COMMITTEES[a].0;
      CommitteeHeadsDistinct(a, k);
      CommitteeHead(a);
      assert other[..2] != rest[..2];
      assert |other| <= |rest| ==> rest[..|other|][..2] == rest[..2];
    }
    PrefixLookupFinds(rest, COMMITTEES, k);
  }

  /**
   * An order naming the Telecommunications, Utilities, and Energy committee is
   * attributed to J33 under the intended reading and never as written.
   */
  lemma TelecommunicationsOrderMissed(tail: string)
    ensures CommitteeIdFromText("Committee on " + COMMITTEES[0].0 + tail) == Some("J33")
    ensures CommitteeIdFromTextAsWritten("Committee on " + COMMITTEES[0].0 + tail) != Some("J33")
  {
    EveryCommitteeRecognised(0, tail);
    AsWrittenNeverJ33("Committee on " + COMMITTEES[0].0 + tail);
  }

  /** The order type named by the page text. */
  function OrderType(text: string): (r: string)
    ensures Contains(text, "Committee Extension Order") ==> r == "Committee Extension Order"
    ensures !Contains(text, "Committee Extension Order") && Contains(text, "Joint Committee") ==> r == "Joint Committee Extension Order"
    ensures r == "Extension Order" <==> !Contains(text, "Committee Extension Order") && !Contains(text, "Joint Committee")
  {
    if Contains(text, "Committee Extension Order") then "Committee Extension Order"
    else if Contains(text, "Joint Committee") then "Joint Committee Extension Order"
    else "Extension Order"
  }

  // ---------------------------------------------------------------------------
  // One order page
  // ---------------------------------------------------------------------------

  /** An order page: its text, the date found in it (if any) and the document-number matches; or a failed fetch. */
  datatype OrderPage = OrderPage(text: string, extensionDate: Option<Date>, docMatches: seq<DocMatch>) | Unreadable

  function OrdersFor(ids: seq<string>, committee: string, date: Date, url: string, orderType: string,
                     isFallback: bool, isDateFallback: bool): (r: seq<ExtensionOrder>)
    ensures |r| == |ids|
    ensures forall k :: 0 <= k < |r| ==>
              r[k] == ExtensionOrder(ids[k], committee, date, url, orderType, isFallback, isDateFallback)
  {
    if |ids| == 0 then []
    else [ExtensionOrder(ids[0], committee, date, url, orderType, isFallback, isDateFallback)]
         + OrdersFor(ids[1..], committee, date, url, orderType, isFallback, isDateFallback)
  }

  /**
   * `_parse_extension_order_page`: one order per bill id in the text, or one for the
   * id in the URL (flagged as a fallback); no id at all, or a failed fetch, gives none.
   */
  function ParseExtensionOrderPage(orderUrl: string, page: OrderPage): (r: seq<ExtensionOrder>)
    ensures page.Unreadable? ==> r == []
    ensures page.OrderPage? ==>
              (r == [] <==> ExtractBillNumbers(page.docMatches) == [] && ExtractBillIdFromOrderUrl(orderUrl).None?)
    ensures page.OrderPage? && ExtractBillNumbers(page.docMatches) != [] ==>
              |r| == |ExtractBillNumbers(page.docMatches)|
              && forall k :: 0 <= k < |r| ==> r[k].billId == ExtractBillNumbers(page.docMatches)[k] && !r[k].isFallback
    ensures page.OrderPage? && ExtractBillNumbers(page.docMatches) == [] && r != [] ==>
              r == [r[0]] && r[0].isFallback && Some(r[0].billId) == ExtractBillIdFromOrderUrl(orderUrl)
    ensures forall o :: o in r ==>
              && o.url == orderUrl
              && o.isDateFallback == page.extensionDate.None?
              && o.extensionDate == page.extensionDate.GetOr(EXTENSION_PLACEHOLDER)
              && o.committeeId == CommitteeIdFromTextAsWritten(page.text).GetOr("UNKNOWN")
              && o.orderType == OrderType(page.text)
  {
    match page
    case Unreadable => []
    case OrderPage(text, date, ms) =>
      var committee := CommitteeIdFromTextAsWritten(text).GetOr("UNKNOWN");
      var ids := ExtractBillNumbers(ms);
      var d := date.GetOr(EXTENSION_PLACEHOLDER);
      if ids != [] then OrdersFor(ids, committee, d, orderUrl, OrderType(text), false, date.None?)
      else match ExtractBillIdFromOrderUrl(orderUrl)
           case None => []
           case Some(id) => OrdersFor([id], committee, d, orderUrl, OrderType(text), true, date.None?)
  }

  /** The run stops at the first ',' or newline. */
  lemma {:induction false} NameRunStops(s: string, n: nat)
    requires n < |s| && (s[n] == ',' || s[n] == '\n')
    requires forall i :: 0 <= i < n ==> s[i] != ',' && s[i] != '\n'
    ensures NameRun(s) == n
  {
    if n > 0 {
      NameRunStops(s[1..], n - 1);
    }
  }

  const TELECOM_HEAD: string := "Telecommunications"

  /** The Telecommunications name runs 18 characters before its first comma. */
  lemma TelecomNameRun(tail: string)
    ensures NameRun(COMMITTEES[0].0 + tail) == |TELECOM_HEAD|
    ensures (COMMITTEES[0].0 + tail)[..|TELECOM_HEAD|] == TELECOM_HEAD
  {
    var name := COMMITTEES[0].0;
    assert name[..18] == TELECOM_HEAD && name[18] == ',';
    var rest := name + tail;
    assert rest[..18] == name[..18] && rest[18] == ',';
    assert forall i :: 0 <= i < 18 ==> rest[i] == TELECOM_HEAD[i];
    NameRunStops(rest, 18);
  }

  /** As written, only "Telecommunications" is captured from the committee's full name. */
  lemma TelecomCaptured(tail: string)
    ensures CommitteeCapture("Committee on " + COMMITTEES[0].0 + tail) == Some(TELECOM_HEAD)
  {
    var rest := COMMITTEES[0].0 + tail;
    var text := "Committee on " + rest;
    assert text == "Committee on " + COMMITTEES[0].0 + tail;
    ConcatParts("Committee on ", rest);
    assert Lower("Committee on ") == COMMITTEE_ON;
    assert rest[0] == 'T';
    assert CommitteeMatchAt(text, 0);
    assert text[|COMMITTEE_ON|..] == rest;
    TelecomNameRun(tail);
  }

  /** A text with no whitespace at either end is its own strip. */
  lemma StripUnpadded(t: string)
    requires |t| > 0 && !IsSpace(t[0]) && !IsSpace(t[|t| - 1])
    ensures Strip(t) == t
  {
    assert LStrip(t) == t;
  }

  /** No known name is the bare "Telecommunications": its own entry goes on past a comma, the rest start differently. */
  lemma TelecomHeadNotAName(k: nat)
    requires k < |COMMITTEES|
    ensures COMMITTEES[k].0 != TELECOM_HEAD
  {
    CommitteeHead(k);
    assert TELECOM_HEAD[..2] == "Te";
    if k == 0 {
      assert |COMMITTEES[0].0| > 18;
    } else {
      assert COMMITTEE_HEADS[k] != "Te";
    }
  }

  /** The captured head has no whitespace to strip. */
  lemma TelecomHeadStripped()
    ensures Strip(TELECOM_HEAD) == TELECOM_HEAD
  {
    assert TELECOM_HEAD[0] == 'T' && TELECOM_HEAD[|TELECOM_HEAD| - 1] == 's';
    StripUnpadded(TELECOM_HEAD);
  }

  /** The captured head names no committee. */
  lemma TelecomHeadUnknown()
    ensures LookupCommittee(TELECOM_HEAD, COMMITTEES) == None
  {
    forall k | 0 <= k < |COMMITTEES|
      ensures COMMITTEES[k].0 != TELECOM_HEAD
    {
      TelecomHeadNotAName(k);
    }
  }

  /** As written, the Telecommunications name is captured only up to its first comma, which names no committee. */
  lemma TelecommunicationsCapture(tail: string)
    ensures CommitteeIdFromTextAsWritten("Committee on " + COMMITTEES[0].0 + tail) == None
  {
    TelecomCaptured(tail);
    TelecomHeadStripped();
    TelecomHeadUnknown();
  }

  /** A page naming the Telecommunications committee is recorded under "UNKNOWN", whatever its ids. */
  lemma TelecommunicationsPageUnknown(orderUrl: string, tail: string, date: Option<Date>, ms: seq<DocMatch>)
    ensures forall o :: o in ParseExtensionOrderPage(orderUrl, OrderPage("Committee on " + COMMITTEES[0].0 + tail, date, ms))
                        ==> o.committeeId == "UNKNOWN"
  {
    TelecommunicationsCapture(tail);
  }

  // ---------------------------------------------------------------------------
  // Cache writes during collection
  // ---------------------------------------------------------------------------

  /**
   * Each collected order is cached as it is found: its date and URL, and for an
   * order found only through its URL, the fallback marker over it.
   */
  function CacheCollectedOrders(c: Cache, orders: seq<ExtensionOrder>, isoDate: Date -> string, now: string)
    : (r: Cache)
    ensures forall b, k :: k != "extensions" ==> Entry(r, b, k) == Entry(c, b, k)
    decreases |orders|
  {
    if |orders| == 0 then c
    else
      var o := orders[0];
      var c1 := SetExtension(c, o.billId, isoDate(o.extensionDate), o.url, now);
      var c2 := if o.isFallback then AddBillWithExtensions(c1, o.billId, now) else c1;
      CacheCollectedOrders(c2, orders[1..], isoDate, now)
  }

  /** Caching distributes over concatenation of the collected orders. */
  lemma {:induction false} CacheCollectedAppend(c: Cache, a: seq<ExtensionOrder>, b: seq<ExtensionOrder>,
                                                isoDate: Date -> string, now: string)
    ensures CacheCollectedOrders(c, a + b, isoDate, now)
         == CacheCollectedOrders(CacheCollectedOrders(c, a, isoDate, now), b, isoDate, now)
    decreases |a|
  {
    if |a| > 0 {
      var o := a[0];
      var c1 := SetExtension(c, o.billId, isoDate(o.extensionDate), o.url, now);
      var c2 := if o.isFallback then AddBillWithExtensions(c1, o.billId, now) else c1;
      assert (a + b)[1..] == a[1..] + b;
      CacheCollectedAppend(c2, a[1..], b, isoDate, now);
    } else {
      assert a + b == b;
    }
  }

  /** Orders for other bills leave a bill's cached extension as it was. */
  lemma {:induction false} CacheCollectedOtherBills(c: Cache, orders: seq<ExtensionOrder>, bill: string,
                                                    isoDate: Date -> string, now: string)
    requires forall k :: 0 <= k < |orders| ==> orders[k].billId != bill
    ensures GetExtension(CacheCollectedOrders(c, orders, isoDate, now), bill) == GetExtension(c, bill)
    decreases |orders|
  {
    if |orders| > 0 {
      var o := orders[0];
      var c1 := SetExtension(c, o.billId, isoDate(o.extensionDate), o.url, now);
      var c2 := if o.isFallback then AddBillWithExtensions(c1, o.billId, now) else c1;
      assert GetExtension(c2, bill) == GetExtension(c, bill);
      CacheCollectedOtherBills(c2, orders[1..], bill, isoDate, now);
    }
  }

  /** Collecting only ever writes non-empty extension objects, so a non-empty entry stays non-empty. */
  lemma {:induction false} CacheCollectedKeepsEntry(c: Cache, orders: seq<ExtensionOrder>, bill: string,
                                                    isoDate: Date -> string, now: string)
    requires GetExtension(c, bill).Some? && |GetExtension(c, bill).value| > 0
    ensures var e := GetExtension(CacheCollectedOrders(c, orders, isoDate, now), bill);
            e.Some? && |e.value| > 0
    decreases |orders|
  {
    if |orders| > 0 {
      var o := orders[0];
      var c1 := SetExtension(c, o.billId, isoDate(o.extensionDate), o.url, now);
      var c2 := if o.isFallback then AddBillWithExtensions(c1, o.billId, now) else c1;
      ExtensionEntries(c, o.billId, isoDate(o.extensionDate), o.url, now);
      ExtensionEntries(c1, o.billId, "", "", now);
      assert GetExtension(c2, bill).Some? && |GetExtension(c2, bill).value| > 0;
      CacheCollectedKeepsEntry(c2, orders[1..], bill, isoDate, now);
    }
  }

  /** After collecting, every bill with a collected order has a non-empty cached extension. */
  lemma {:induction false} CollectedBillsCached(c: Cache, orders: seq<ExtensionOrder>, isoDate: Date -> string, now: string)
    ensures forall k :: 0 <= k < |orders| ==>
              var e := GetExtension(CacheCollectedOrders(c, orders, isoDate, now), orders[k].billId);
              e.Some? && |e.value| > 0
    decreases |orders|
  {
    if |orders| > 0 {
      var o := orders[0];
      var c1 := SetExtension(c, o.billId, isoDate(o.extensionDate), o.url, now);
      var c2 := if o.isFallback then AddBillWithExtensions(c1, o.billId, now) else c1;
      ExtensionEntries(c, o.billId, isoDate(o.extensionDate), o.url, now);
      ExtensionEntries(c1, o.billId, "", "", now);
      CacheCollectedKeepsEntry(c2, orders[1..], o.billId, isoDate, now);
      CollectedBillsCached(c2, orders[1..], isoDate, now);
      forall k | 1 <= k < |orders|
        ensures var e := GetExtension(CacheCollectedOrders(c, orders, isoDate, now), orders[k].billId);
                e.Some? && |e.value| > 0
      {
        assert orders[k] == orders[1..][k - 1];
      }
    }
  }

  /** When a bill's last collected order is a URL fallback, its cached extension has neither date nor URL. */
  lemma FallbackOrderLeavesMarker(c: Cache, orders: seq<ExtensionOrder>, o: ExtensionOrder,
                                  isoDate: Date -> string, now: string)
    requires o.isFallback
    ensures var e := GetExtension(CacheCollectedOrders(c, orders + [o], isoDate, now), o.billId);
            e.Some? && |e.value| > 0 && "extension_date" !in e.value && "extension_url" !in e.value
  {
    CacheCollectedAppend(c, orders, [o], isoDate, now);
    var c0 := CacheCollectedOrders(c, orders, isoDate, now);
    var c1 := SetExtension(c0, o.billId, isoDate(o.extensionDate), o.url, now);
    ExtensionEntries(c1, o.billId, "", "", now);
    assert CacheCollectedOrders(c0, [o], isoDate, now) == AddBillWithExtensions(c1, o.billId, now);
  }
}
