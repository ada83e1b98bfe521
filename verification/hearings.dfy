/**
 * The hearings collector: canonical bill ids from docket labels, the hearings of a
 * committee in date order, the bills of one hearing without repeats, and the bills
 * of a committee across (a prefix of) its hearings in docket order.
 *
 * The pages are inputs: what the committee's Hearings tab links to, the event date
 * read from each detail page, and the bill links of each docket.
 */
module Hearings {
  import opened Wrappers
  import opened Text
  import opened Sorting
  import opened Models

  // ---------------------------------------------------------------------------
  // Canonical bill ids
  // ---------------------------------------------------------------------------

  const NBSP: char := '\U{00A0}'

  /** `s.replace("\xa0", " ")`. */
  function ReplaceNbsp(s: string): (r: string)
    ensures |r| == |s|
    ensures forall k :: 0 <= k < |s| ==> r[k] == (if s[k] == NBSP then ' ' else s[k])
  {
    seq(|s|, k requires 0 <= k < |s| => if s[k] == NBSP then ' ' else s[k])
  }

  /** A character that `re.sub(r"[.\s]", "", s)` deletes. */
  predicate Dropped(c: char) {
    c == '.' || IsSpace(c)
  }

  /** `re.sub(r"[.\s]", "", s)`: the characters of `s` that are neither dots nor whitespace, in order. */
  function RemoveDotsAndSpaces(s: string): (r: string)
    ensures |r| <= |s|
    ensures forall k :: 0 <= k < |r| ==> !Dropped(r[k])
  {
    if |s| == 0 then []
    else
      (if Dropped(s[0]) then [] else [s[0]]) + RemoveDotsAndSpaces(s[1..])
  }

  /** Text without dots or whitespace is kept whole; text made only of them disappears. */
  lemma {:induction false} RemoveExtremes(s: string)
    ensures (forall k :: 0 <= k < |s| ==> !Dropped(s[k])) ==> RemoveDotsAndSpaces(s) == s
    ensures (forall k :: 0 <= k < |s| ==> Dropped(s[k])) ==> RemoveDotsAndSpaces(s) == []
  {
    if |s| > 0 {
      RemoveExtremes(s[1..]);
      assert s == [s[0]] + s[1..];
    }
  }

  /** Every character kept has any property all characters of the input have. */
  lemma {:induction false} RemoveKeeps(s: string, p: char -> bool)
    requires forall k :: 0 <= k < |s| ==> p(s[k])
    ensures forall k :: 0 <= k < |RemoveDotsAndSpaces(s)| ==> p(RemoveDotsAndSpaces(s)[k])
  {
    if |s| > 0 {
      RemoveKeeps(s[1..], p);
    }
  }

  /** Where the maximal run of upper-case ASCII letters ending `s` begins. */
  function LetterTailStart(s: string): (j: nat)
    ensures j <= |s|
    ensures forall k :: j <= k < |s| ==> IsUpperLetter(s[k])
    ensures j == 0 || !IsUpperLetter(s[j - 1])
  {
    if |s| == 0 then 0
    else if IsUpperLetter(s[|s| - 1]) then LetterTailStart(s[..|s| - 1])
    else |s|
  }

  /** Where the maximal run of digits ending at index `j` of `s` begins. */
  function DigitRunStart(s: string, j: nat): (i: nat)
    requires j <= |s|
    ensures i <= j
    ensures forall k :: i <= k < j ==> IsDigit(s[k])
    ensures i == 0 || !IsDigit(s[i - 1])
  {
    if j == 0 then 0
    else if IsDigit(s[j - 1]) then DigitRunStart(s, j - 1)
    else j
  }

  /** `(H|S)(\d+)[A-Z]*$` matches `s` from index `i`, the digits ending at `j`. */
  predicate SuffixMatchAt(s: string, i: int, j: int) {
    && 0 <= i < j <= |s|
    && (s[i] == 'H' || s[i] == 'S')
    && IsDigits(s[i + 1..j])
    && forall k :: j <= k < |s| ==> IsUpperLetter(s[k])
  }

  /** `re.sub(r"(H|S)(\d+)[A-Z]*$", r"\1\2", s)`: the trailing letters after a chamber and number are cut. */
  function DropTrailingLetters(s: string): (r: string)
    ensures StartsWith(s, r)
  {
    var j := LetterTailStart(s);
    var i := DigitRunStart(s, j);
    if 0 < i < j && (s[i - 1] == 'H' || s[i - 1] == 'S') then s[..j] else s
  }

  /** The cut happens exactly when the pattern matches, and then keeps everything up to the digits. */
  lemma DropTrailingLettersMatches(s: string)
    ensures forall i, j :: SuffixMatchAt(s, i, j) ==> DropTrailingLetters(s) == s[..j]
    ensures (forall i, j :: !SuffixMatchAt(s, i, j)) ==> DropTrailingLetters(s) == s
  {
    var j := LetterTailStart(s);
    var i := DigitRunStart(s, j);
    forall i', j' | SuffixMatchAt(s, i', j')
      ensures DropTrailingLetters(s) == s[..j']
    {
      SuffixMatchDetermined(s, i', j');
    }
    if 0 < i < j && (s[i - 1] == 'H' || s[i - 1] == 'S') {
      assert s[i..j] == s[i - 1 + 1..j];
      assert SuffixMatchAt(s, i - 1, j);
    }
  }

  /** A match of the pattern sits where the letter tail and the digit run before it begin. */
  lemma SuffixMatchDetermined(s: string, i: int, j: int)
    requires SuffixMatchAt(s, i, j)
    ensures j == LetterTailStart(s) && i + 1 == DigitRunStart(s, j)
  {
    assert s[j - 1] == s[i + 1..j][j - i - 2];
    assert !IsUpperLetter(s[j - 1]);
    assert forall k :: i + 1 <= k < j ==> s[k] == s[i + 1..j][k - i - 1];
  }

  /** `_normalize_bill_id`: upper-case, no dots or whitespace, trailing letters after the number dropped. */
  function NormalizeBillId(raw: string): (r: string)
    ensures forall k :: 0 <= k < |r| ==> !Dropped(r[k]) && UpperChar(r[k]) == r[k]
  {
    var s := RemoveDotsAndSpaces(ReplaceNbsp(Upper(raw)));
    RemoveKeeps(ReplaceNbsp(Upper(raw)), c => UpperChar(c) == c);
    var r := DropTrailingLetters(s);
    assert forall k :: 0 <= k < |r| ==> r[k] == s[k];
    r
  }

  /** Text without lower-case letters or NBSP passes the first two steps unchanged. */
  lemma CleanInputKept(s: string)
    requires forall k :: 0 <= k < |s| ==> !('a' <= s[k] <= 'z') && s[k] != NBSP
    ensures ReplaceNbsp(Upper(s)) == s
  {
  }

  /** Deleting dots and whitespace distributes over concatenation. */
  lemma {:induction false} RemoveAppend(a: string, b: string)
    ensures RemoveDotsAndSpaces(a + b) == RemoveDotsAndSpaces(a) + RemoveDotsAndSpaces(b)
  {
    if |a| == 0 {
      assert a + b == b;
    } else {
      var head := if Dropped(a[0]) then [] else [a[0]];
      assert (a + b)[0] == a[0] && (a + b)[1..] == a[1..] + b;
      assert RemoveDotsAndSpaces(a + b) == head + RemoveDotsAndSpaces(a[1..] + b);
      RemoveAppend(a[1..], b);
      assert RemoveDotsAndSpaces(a) == head + RemoveDotsAndSpaces(a[1..]);
    }
  }

  /** Deleting the separators of such a label leaves the chamber letter, the number and the letters. */
  lemma RemoveSeparators(head: string, sep1: string, digits: string, sep2: string, tail: string)
    requires forall k :: 0 <= k < |head| ==> !Dropped(head[k])
    requires forall k :: 0 <= k < |sep1| ==> Dropped(sep1[k])
    requires forall k :: 0 <= k < |digits| ==> !Dropped(digits[k])
    requires forall k :: 0 <= k < |sep2| ==> Dropped(sep2[k])
    requires forall k :: 0 <= k < |tail| ==> !Dropped(tail[k])
    ensures RemoveDotsAndSpaces(head + sep1 + digits + sep2 + tail) == head + digits + tail
  {
    RemoveExtremes(head);
    RemoveExtremes(sep1);
    RemoveExtremes(digits);
    RemoveExtremes(sep2);
    RemoveExtremes(tail);
    var x1 := head + sep1;
    var x2 := x1 + digits;
    var x3 := x2 + sep2;
    assert RemoveDotsAndSpaces(x1) == head by { RemoveAppend(head, sep1); }
    assert RemoveDotsAndSpaces(x2) == head + digits by { RemoveAppend(x1, digits); }
    assert RemoveDotsAndSpaces(x3) == head + digits by { RemoveAppend(x2, sep2); }
    RemoveAppend(x3, tail);
  }

  /** The cleaning steps of such a label leave the chamber letter, the number and the letters. */
  lemma SpacedLabelCleaned(c: char, sep1: string, digits: string, sep2: string, tail: string)
    requires c == 'H' || c == 'S'
    requires forall k :: 0 <= k < |sep1| ==> Dropped(sep1[k]) && sep1[k] != NBSP
    requires IsDigits(digits)
    requires forall k :: 0 <= k < |sep2| ==> Dropped(sep2[k]) && sep2[k] != NBSP
    requires forall k :: 0 <= k < |tail| ==> IsUpperLetter(tail[k])
    ensures RemoveDotsAndSpaces(ReplaceNbsp(Upper([c] + sep1 + digits + sep2 + tail))) == [c] + digits + tail
  {
    CleanInputKept([c] + sep1 + digits + sep2 + tail);
    RemoveSeparators([c], sep1, digits, sep2, tail);
  }

  /**
   * A label written as a chamber letter, separators (dots and spaces), the number,
   * more separators and upper-case letters normalises to the chamber letter and the
   * number.
   */
  lemma NormalizeSpacedLabel(c: char, sep1: string, digits: string, sep2: string, tail: string)
    requires c == 'H' || c == 'S'
    requires forall k :: 0 <= k < |sep1| ==> Dropped(sep1[k]) && sep1[k] != NBSP
    requires IsDigits(digits)
    requires forall k :: 0 <= k < |sep2| ==> Dropped(sep2[k]) && sep2[k] != NBSP
    requires forall k :: 0 <= k < |tail| ==> IsUpperLetter(tail[k])
    ensures NormalizeBillId([c] + sep1 + digits + sep2 + tail) == [c] + digits
  {
    SpacedLabelCleaned(c, sep1, digits, sep2, tail);
    var s := [c] + digits + tail;
    assert s[1..1 + |digits|] == digits;
    assert SuffixMatchAt(s, 0, 1 + |digits|);
    DropTrailingLettersMatches(s);
    assert s[..1 + |digits|] == [c] + digits;
  }

  /** The first example label in the pieces the general lemma takes. */
  lemma FirstLabelPieces()
    ensures ['H'] + ". " + "73" + "" + "" == "H. 73"
  {
  }

  /** The second example label in the pieces the general lemma takes, with what they satisfy. */
  lemma SecondLabelPieces()
    ensures ['S'] + "." + "197" + " " + "C" == "S.197 C" && ['S'] + "197" == "S197"
    ensures IsDigits("197") && IsUpperLetter("C"[0]) && Dropped("."[0]) && Dropped(" "[0])
  {
  }

  /** The first label the source gives as an example: "H. 73" becomes "H73". */
  lemma NormalizeFirstExample()
    ensures NormalizeBillId("H. 73") == "H73"
  {
    FirstLabelPieces();
    NormalizeSpacedLabel('H', ". ", "73", "", "");
  }

  /** The second example: "S.197 C" becomes "S197", the trailing "C" cut. */
  lemma NormalizeSecondExample()
    ensures NormalizeBillId("S.197 C") == "S197"
  {
    SecondLabelPieces();
    NormalizeSpacedLabel('S', ".", "197", " ", "C");
  }

  /** Cutting the trailing letters a second time changes nothing. */
  lemma DropTrailingLettersIdempotent(s: string)
    ensures DropTrailingLetters(DropTrailingLetters(s)) == DropTrailingLetters(s)
  {
    var j := LetterTailStart(s);
    var i := DigitRunStart(s, j);
    DropTrailingLettersMatches(s);
    if 0 < i < j && (s[i - 1] == 'H' || s[i - 1] == 'S') {
      var t := s[..j];
      assert t[i..j] == s[i..j];
      assert SuffixMatchAt(t, i - 1, j);
      DropTrailingLettersMatches(t);
    }
  }

  /** `_normalize_bill_id` is idempotent: a canonical id is its own canonical form. */
  lemma NormalizeIdempotent(raw: string)
    ensures NormalizeBillId(NormalizeBillId(raw)) == NormalizeBillId(raw)
  {
    var r := NormalizeBillId(raw);
    var s := RemoveDotsAndSpaces(ReplaceNbsp(Upper(raw)));
    assert Upper(r) == r;
    assert ReplaceNbsp(r) == r;
    RemoveExtremes(r);
    DropTrailingLettersIdempotent(s);
  }

  // ---------------------------------------------------------------------------
  // The hearings of a committee
  // ---------------------------------------------------------------------------

  /** A link on the Hearings tab: its href, its text and the text of its parent row, if any. */
  datatype HearingLink = HearingLink(href: string, text: string, rowText: Option<string>)

  /** A link on a hearing's docket: its href and its text. */
  datatype BillLink = BillLink(href: string, text: string)

  /**
   * The site as the collector sees it: the links of the Hearings tab at a URL, the
   * event date read from a detail page (none when the page has no readable date),
   * the bill links of a docket page, and `urljoin`.
   */
  datatype Site = Site(
    hearingLinks: string -> seq<HearingLink>,
    eventDate: string -> Option<Date>,
    billLinks: string -> seq<BillLink>,
    urlJoin: (string, string) -> string)

  const DETAIL_PATH := "/Events/Hearings/Detail/"

  /** `HREF_HEARING_RE.search(href).group(1)`: the digits ending the href after a case-insensitive detail path. */
  function HearingIdOfHref(href: string): (r: Option<string>)
    ensures r.Some? ==> IsDigits(r.value) && EndsWith(href, r.value)
  {
    var i := DigitRunStart(href, |href|);
    if i < |href| && |DETAIL_PATH| <= i && Lower(href[i - |DETAIL_PATH|..i]) == Lower(DETAIL_PATH) then
      Some(href[i..])
    else None
  }

  /** The detail-page href of a hearing id reads back as that id. */
  lemma HearingHrefRoundTrip(prefix: string, hid: string)
    requires IsDigits(hid)
    ensures HearingIdOfHref(prefix + DETAIL_PATH + hid) == Some(hid)
  {
    var h := prefix + DETAIL_PATH + hid;
    var n := |prefix| + |DETAIL_PATH|;
    assert h[n..] == hid;
    assert h[n - 1] == '/';
    assert forall k :: n <= k < |h| ==> IsDigit(h[k]) by {
      forall k | n <= k < |h|
        ensures IsDigit(h[k])
      {
        assert h[k] == hid[k - n];
      }
    }
    assert DigitRunStart(h, |h|) == n;
    assert h[n - |DETAIL_PATH|..n] == DETAIL_PATH;
  }

  /** `\bw\b` matches `s` at `i`, letter case ignored. */
  predicate WordAt(s: string, w: string, i: int) {
    && 0 <= i && i + |w| <= |s|
    && Lower(s[i..i + |w|]) == Lower(w)
    && (i == 0 || !IsWordChar(s[i - 1]))
    && (i + |w| == |s| || !IsWordChar(s[i + |w|]))
  }

  predicate HasWord(s: string, w: string) {
    exists i :: 0 <= i <= |s| && WordAt(s, w, i)
  }

  /** The status flag read from a hearing's row text. */
  function StatusFlag(rowText: Option<string>): (r: string)
    ensures r in {"Confirmed", "Completed", ""}
    ensures r == "Confirmed" <==> rowText.Some? && HasWord(Collapse(rowText.value), "Confirmed")
    ensures r == "" <==> rowText.None? || (!HasWord(Collapse(rowText.value), "Confirmed")
                                           && !HasWord(Collapse(rowText.value), "Completed"))
  {
    var status := if rowText.Some? then Collapse(rowText.value) else "";
    if HasWord(status, "Confirmed") then "Confirmed"
    else if HasWord(status, "Completed") then "Completed"
    else ""
  }

  /** The hearing a link on the Hearings tab yields, if its href names one. */
  function HearingOfLink(site: Site, baseUrl: string, committeeId: string, link: HearingLink): (r: Option<Hearing>)
    ensures r.Some? <==> Contains(link.href, DETAIL_PATH) && HearingIdOfHref(link.href).Some?
    ensures r.Some? ==>
              && r.value.id == HearingIdOfHref(link.href).value
              && r.value.committeeId == committeeId
              && r.value.url == site.urlJoin(baseUrl, DETAIL_PATH + r.value.id)
              && r.value.date == site.eventDate(r.value.url).GetOr(DATE_MIN)
              && r.value.status == StatusFlag(link.rowText)
              && r.value.title == Collapse(link.text)
  {
    if !Contains(link.href, DETAIL_PATH) then None
    else match HearingIdOfHref(link.href)
         case None => None
         case Some(hid) =>
           var detailUrl := site.urlJoin(baseUrl, DETAIL_PATH + hid);
           Some(Hearing(hid, committeeId, detailUrl, site.eventDate(detailUrl).GetOr(DATE_MIN),
                        StatusFlag(link.rowText), Collapse(link.text)))
  }

  /** The hearings the links yield, in link order. */
  function HearingsOfLinks(site: Site, baseUrl: string, committeeId: string, links: seq<HearingLink>): (r: seq<Hearing>)
    ensures |r| <= |links|
    ensures forall h :: h in r <==> exists l :: l in links && HearingOfLink(site, baseUrl, committeeId, l) == Some(h)
  {
    if |links| == 0 then []
    else
      var rest := HearingsOfLinks(site, baseUrl, committeeId, links[1..]);
      assert forall l :: l in links <==> l == links[0] || l in links[1..];
      match HearingOfLink(site, baseUrl, committeeId, links[0])
      case Some(h) => [h] + rest
      case None => rest
  }

  /** `(h.date, h.id)`. */
  function HearingKey(h: Hearing): Key {
    [KInt(h.date), KStr(h.id)]
  }

  /** `list_committee_hearings`: the hearings the Hearings tab links to, oldest first, ties by id. */
  function ListCommitteeHearings(site: Site, baseUrl: string, committeeId: string): (r: seq<Hearing>)
  {
    var tab := site.urlJoin(baseUrl, "/Committees/Detail/" + committeeId + "/Hearings");
    SortBy(HearingsOfLinks(site, baseUrl, committeeId, site.hearingLinks(tab)), HearingKey)
  }

  /**
   * The listed hearings are exactly the hearings of the tab's links, in (date, id)
   * order, and one whose detail page has no readable date is dated `date.min`.
   */
  lemma ListedHearings(site: Site, baseUrl: string, committeeId: string)
    ensures var r := ListCommitteeHearings(site, baseUrl, committeeId);
            var tab := site.urlJoin(baseUrl, "/Committees/Detail/" + committeeId + "/Hearings");
            && Sorted(r, HearingKey)
            && multiset(r) == multiset(HearingsOfLinks(site, baseUrl, committeeId, site.hearingLinks(tab)))
            && forall h :: h in r ==> h.committeeId == committeeId
                                      && (site.eventDate(h.url).None? ==> h.date == DATE_MIN)
  {
    var tab := site.urlJoin(baseUrl, "/Committees/Detail/" + committeeId + "/Hearings");
    var hs := HearingsOfLinks(site, baseUrl, committeeId, site.hearingLinks(tab));
    SortBySorted(hs, HearingKey);
    SortByPermutation(hs, HearingKey);
    var r := SortBy(hs, HearingKey);
    forall h | h in r
      ensures h.committeeId == committeeId && (site.eventDate(h.url).None? ==> h.date == DATE_MIN)
    {
      assert h in multiset(r);
      assert h in hs;
    }
  }

  // ---------------------------------------------------------------------------
  // The bills of one hearing
  // ---------------------------------------------------------------------------

  /** `/Bills/\d+/(H|S)\d+` matches `href` at `i`, the session number ending at `j`, letter case ignored. */
  predicate BillHrefAt(href: string, i: int, j: int) {
    && 0 <= i && i + 7 < j && j + 2 < |href|
    && Lower(href[i..i + 7]) == "/bills/"
    && IsDigits(href[i + 7..j])
    && href[j] == '/'
    && (href[j + 1] in "HhSs")
    && IsDigit(href[j + 2])
  }

  /** `HREF_BILL_RE.search(href)` succeeds. */
  predicate IsBillHref(href: string) {
    exists i, j :: 0 <= i < j < |href| && BillHrefAt(href, i, j)
  }

  /** The row a docket link contributes, if its href is a bill link. */
  function RowOfLink(baseUrl: string, urlJoin: (string, string) -> string, hearing: Hearing, link: BillLink)
    : (r: Option<BillAtHearing>)
    ensures r.Some? <==> Contains(link.href, "/Bills/") && IsBillHref(link.href)
    ensures r.Some? ==> r.value == BillAtHearing(NormalizeBillId(Collapse(link.text)), Collapse(link.text),
                                                  urlJoin(baseUrl, link.href), hearing.id, hearing.date,
                                                  hearing.committeeId, hearing.url)
  {
    if Contains(link.href, "/Bills/") && IsBillHref(link.href) then
      var shown := Collapse(link.text);
      Some(BillAtHearing(NormalizeBillId(shown), shown, urlJoin(baseUrl, link.href), hearing.id, hearing.date,
                         hearing.committeeId, hearing.url))
    else None
  }

  /** The rows of the docket links, before de-duplication. */
  function RowsOfLinks(baseUrl: string, urlJoin: (string, string) -> string, hearing: Hearing, links: seq<BillLink>)
    : (r: seq<BillAtHearing>)
    ensures |r| <= |links|
    ensures forall b :: b in r ==> b.hearingId == hearing.id && b.hearingDate == hearing.date
                                   && b.committeeId == hearing.committeeId && b.hearingUrl == hearing.url
  {
    if |links| == 0 then []
    else
      var rest := RowsOfLinks(baseUrl, urlJoin, hearing, links[1..]);
      match RowOfLink(baseUrl, urlJoin, hearing, links[0])
      case Some(b) => [b] + rest
      case None => rest
  }

  /** What the de-duplication compares: `(bill_id, hearing_id)`. */
  function RowKey(b: BillAtHearing): (string, string) {
    (b.billId, b.hearingId)
  }

  /** No earlier row has the key of row `k`. */
  predicate FirstOfKey(rows: seq<BillAtHearing>, k: int)
    requires 0 <= k < |rows|
  {
    forall m :: 0 <= m < k ==> RowKey(rows[m]) != RowKey(rows[k])
  }

  /** Reference definition: the rows among the first `n` that are the first of their key, in order. */
  function FirstOccurrences(rows: seq<BillAtHearing>, n: nat): (r: seq<BillAtHearing>)
    requires n <= |rows|
    ensures |r| <= n
  {
    if n == 0 then []
    else FirstOccurrences(rows, n - 1) + (if FirstOfKey(rows, n - 1) then [rows[n - 1]] else [])
  }

  /** The keys among the first `n` rows. */
  function KeysUpTo(rows: seq<BillAtHearing>, n: nat): set<(string, string)>
    requires n <= |rows|
  {
    set m | 0 <= m < n :: RowKey(rows[m])
  }

  /**
   * The first occurrences keep one row for every key and never two rows with
   * the same key.
   */
  lemma {:induction false} FirstOccurrencesDistinct(rows: seq<BillAtHearing>, n: nat)
    requires n <= |rows|
    ensures forall a, b :: 0 <= a < b < |FirstOccurrences(rows, n)| ==>
              RowKey(FirstOccurrences(rows, n)[a]) != RowKey(FirstOccurrences(rows, n)[b])
    ensures forall b :: b in FirstOccurrences(rows, n) ==> b in rows[..n]
    ensures (set b | b in FirstOccurrences(rows, n) :: RowKey(b)) == KeysUpTo(rows, n)
  {
    if n > 0 {
      FirstOccurrencesDistinct(rows, n - 1);
      var p := FirstOccurrences(rows, n - 1);
      var r := FirstOccurrences(rows, n);
      assert forall b :: b in rows[..n - 1] ==> b in rows[..n];
      assert KeysUpTo(rows, n) == KeysUpTo(rows, n - 1) + {RowKey(rows[n - 1])};
      if FirstOfKey(rows, n - 1) {
        assert r == p + [rows[n - 1]];
        assert RowKey(rows[n - 1]) !in KeysUpTo(rows, n - 1);
        forall a, b | 0 <= a < b < |r|
          ensures RowKey(r[a]) != RowKey(r[b])
        {
          if b == |p| {
            assert r[a] == p[a];
            assert RowKey(p[a]) in KeysUpTo(rows, n - 1);
          }
        }
        assert rows[n - 1] in rows[..n];
      } else {
        var m :| 0 <= m < n - 1 && RowKey(rows[m]) == RowKey(rows[n - 1]);
        assert RowKey(rows[n - 1]) in KeysUpTo(rows, n - 1);
        assert r == p;
      }
    }
  }

  /** The de-duplication loop of `extract_bills_from_hearing`. */
  method Dedupe(bills: seq<BillAtHearing>) returns (deduped: seq<BillAtHearing>)
    ensures deduped == FirstOccurrences(bills, |bills|)
  {
    var seen: set<(string, string)> := {};
    deduped := [];
    var i := 0;
    while i < |bills|
      invariant 0 <= i <= |bills|
      invariant seen == KeysUpTo(bills, i)
      invariant deduped == FirstOccurrences(bills, i)
    {
      var b := bills[i];
      assert KeysUpTo(bills, i + 1) == seen + {RowKey(b)};
      if (b.billId, b.hearingId) in seen {
        var m :| 0 <= m < i && RowKey(bills[m]) == RowKey(b);
        assert !FirstOfKey(bills, i);
      } else {
        deduped := deduped + [b];
        seen := seen + {(b.billId, b.hearingId)};
      }
      i := i + 1;
    }
  }

  /** `extract_bills_from_hearing`: the docket's bill rows, first occurrence of each key only. */
  function BillsOfHearing(site: Site, baseUrl: string, hearing: Hearing): (r: seq<BillAtHearing>)
    ensures forall b :: b in r ==> b.hearingId == hearing.id && b.hearingDate == hearing.date
                                   && b.committeeId == hearing.committeeId && b.hearingUrl == hearing.url
  {
    var rows := RowsOfLinks(baseUrl, site.urlJoin, hearing, site.billLinks(hearing.url));
    FirstOccurrencesDistinct(rows, |rows|);
    assert rows[..|rows|] == rows;
    FirstOccurrences(rows, |rows|)
  }

  // ---------------------------------------------------------------------------
  // The bills of a committee
  // ---------------------------------------------------------------------------

  /** Python's `s[:n]` for any integer `n`: a negative `n` counts from the end. */
  function SliceTo<T>(s: seq<T>, n: int): (r: seq<T>)
    ensures 0 <= n ==> r == s[..if n < |s| then n else |s|]
    ensures n < 0 ==> r == s[..if |s| + n < 0 then 0 else |s| + n]
  {
    if 0 <= n then s[..if n < |s| then n else |s|]
    else s[..if |s| + n < 0 then 0 else |s| + n]
  }

  /** `if limit_hearings: hearings = hearings[:limit_hearings]`: `None` and `0` keep every hearing. */
  function LimitHearings(hearings: seq<Hearing>, limit: Option<int>): (r: seq<Hearing>)
    ensures limit.None? || limit.value == 0 ==> r == hearings
    ensures limit.Some? && limit.value > 0 ==> |r| == (if limit.value < |hearings| then limit.value else |hearings|)
    ensures IsPrefix(r, hearings)
  {
    if limit.Some? && limit.value != 0 then SliceTo(hearings, limit.value) else hearings
  }

  /** `r` is a prefix of `s`. */
  predicate IsPrefix<T(==)>(r: seq<T>, s: seq<T>) {
    |r| <= |s| && s[..|r|] == r
  }

  /** The rows of the hearings, hearing by hearing. */
  function BillsOfHearings(site: Site, baseUrl: string, hearings: seq<Hearing>): (r: seq<BillAtHearing>)
    ensures forall b :: b in r ==> exists h :: h in hearings && b.hearingId == h.id && b.hearingDate == h.date
  {
    if |hearings| == 0 then []
    else
      var here := BillsOfHearing(site, baseUrl, hearings[0]);
      var rest := BillsOfHearings(site, baseUrl, hearings[1..]);
      assert forall h :: h in hearings[1..] ==> h in hearings;
      assert forall b :: b in here ==> b.hearingId == hearings[0].id && b.hearingDate == hearings[0].date;
      here + rest
  }

  /** `(b.hearing_date, b.hearing_id, b.bill_id)`. */
  function DocketKey(b: BillAtHearing): Key {
    [KInt(b.hearingDate), KStr(b.hearingId), KStr(b.billId)]
  }

  /** `get_bills_for_committee`. */
  function BillsForCommittee(site: Site, baseUrl: string, committeeId: string, limit: Option<int>)
    : (r: seq<BillAtHearing>)
  {
    var hearings := LimitHearings(ListCommitteeHearings(site, baseUrl, committeeId), limit);
    SortBy(BillsOfHearings(site, baseUrl, hearings), DocketKey)
  }

  /**
   * The committee's rows are the rows of the kept hearings, in docket order; with a
   * positive limit only the first `limit` hearings in date order contribute.
   */
  lemma CommitteeRows(site: Site, baseUrl: string, committeeId: string, limit: Option<int>)
    ensures var hearings := LimitHearings(ListCommitteeHearings(site, baseUrl, committeeId), limit);
            var r := BillsForCommittee(site, baseUrl, committeeId, limit);
            && Sorted(r, DocketKey)
            && multiset(r) == multiset(BillsOfHearings(site, baseUrl, hearings))
            && forall b :: b in r ==> exists h :: h in hearings && b.hearingId == h.id && b.hearingDate == h.date
  {
    var hearings := LimitHearings(ListCommitteeHearings(site, baseUrl, committeeId), limit);
    var all := BillsOfHearings(site, baseUrl, hearings);
    SortBySorted(all, DocketKey);
    SortByPermutation(all, DocketKey);
    var r := SortBy(all, DocketKey);
    forall b | b in r
      ensures exists h :: h in hearings && b.hearingId == h.id && b.hearingDate == h.date
    {
      assert b in multiset(r);
      assert b in all;
    }
  }
}
