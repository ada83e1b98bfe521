/**
 * The committee-contact collector's pure parts: the legislature e-mail domain
 * check, and the room, phone and address read from the collapsed text of a
 * chamber's contact block.
 */
module Contacts {
  import opened Wrappers
  import opened Text

  // ---------------------------------------------------------------------------
  // E-mail domain
  // ---------------------------------------------------------------------------

  const SENATE_DOMAIN := "@masenate.gov"
  const HOUSE_DOMAIN := "@mahouse.gov"

  /** `_validate_email_domain`: a non-empty address whose lower-cased, stripped form ends with a legislature domain. */
  predicate ValidateEmailDomain(email: string) {
    if email == "" then false
    else
      var e := Strip(Lower(email));
      EndsWith(e, SENATE_DOMAIN) || EndsWith(e, HOUSE_DOMAIN)
  }

  /** Lower-casing and stripping keep a lower-case suffix that has no whitespace at either end. */
  lemma CleanKeepsSuffix(local: string, domain: string)
    requires |domain| > 0 && !IsSpace(domain[0]) && !IsSpace(domain[|domain| - 1]) && Lower(domain) == domain
    ensures EndsWith(Strip(Lower(local + domain)), domain)
  {
    LowerAppend(local, domain);
    var y := Lower(local);
    LStripAppend(y, domain);
    var l := LStrip(y + domain);
    assert LStrip(domain) == domain;
    assert l == LStrip(y) + domain || l == domain;
    assert l[|l| - 1] == domain[|domain| - 1];
    assert RStrip(l) == l;
    assert l[|l| - |domain|..] == domain;
  }

  /** Every address in a legislature domain is accepted, whatever precedes the `@`. */
  lemma ValidateAcceptsLegislatureAddress(local: string, domain: string)
    requires domain == SENATE_DOMAIN || domain == HOUSE_DOMAIN
    ensures ValidateEmailDomain(local + domain)
  {
    assert Lower(domain) == domain;
    CleanKeepsSuffix(local, domain);
  }

  lemma LowerAppend(a: string, b: string)
    ensures Lower(a + b) == Lower(a) + Lower(b)
  {
  }

  /** Stripping leading whitespace: what follows a non-blank start keeps its tail; a blank start is skipped. */
  lemma {:induction false} LStripAppend(x: string, y: string)
    ensures |LStrip(x)| > 0 ==> LStrip(x + y) == LStrip(x) + y
    ensures |LStrip(x)| == 0 ==> LStrip(x + y) == LStrip(y)
  {
    if |x| == 0 {
      assert x + y == y;
    } else {
      assert (x + y)[0] == x[0] && (x + y)[1..] == x[1..] + y;
      if IsSpace(x[0]) {
        LStripAppend(x[1..], y);
      }
    }
  }

  /** Trailing whitespace does not survive `rstrip`. */
  lemma {:induction false} RStripSpaceSuffix(x: string, ws: string)
    requires forall k :: 0 <= k < |ws| ==> IsSpace(ws[k])
    ensures RStrip(x + ws) == RStrip(x)
    decreases |ws|
  {
    if |ws| > 0 {
      var w := ws[..|ws| - 1];
      assert x + ws == (x + w) + [ws[|ws| - 1]];
      assert (x + ws)[..|x + ws| - 1] == x + w;
      RStripSpaceSuffix(x, w);
    } else {
      assert x + ws == x;
    }
  }

  /** Leading whitespace does not survive `lstrip`. */
  lemma {:induction false} LStripSpacePrefix(ws: string, y: string)
    requires forall k :: 0 <= k < |ws| ==> IsSpace(ws[k])
    ensures LStrip(ws + y) == LStrip(y)
  {
    if |ws| == 0 {
      assert ws + y == y;
    } else {
      assert (ws + y)[1..] == ws[1..] + y;
      LStripSpacePrefix(ws[1..], y);
    }
  }

  /** Whitespace around a text does not survive `strip`. */
  lemma StripPadded(ws1: string, x: string, ws2: string)
    requires forall k :: 0 <= k < |ws1| ==> IsSpace(ws1[k])
    requires forall k :: 0 <= k < |ws2| ==> IsSpace(ws2[k])
    ensures Strip(ws1 + x + ws2) == Strip(x)
  {
    assert ws1 + x + ws2 == ws1 + (x + ws2);
    LStripSpacePrefix(ws1, x + ws2);
    LStripAppend(x, ws2);
    if |LStrip(x)| > 0 {
      RStripSpaceSuffix(LStrip(x), ws2);
    } else {
      LStripSpacePrefix(ws2, []);
      assert ws2 + [] == ws2;
    }
  }

  /** The check ignores letter case: addresses with the same lower-case form are judged alike. */
  lemma ValidateIgnoresCase(a: string, b: string)
    requires Lower(a) == Lower(b)
    ensures ValidateEmailDomain(a) == ValidateEmailDomain(b)
  {
    assert |a| == |Lower(a)| == |b|;
  }

  /** Upper-casing an address does not change the verdict. */
  lemma ValidateUpperCase(email: string)
    ensures ValidateEmailDomain(Upper(email)) == ValidateEmailDomain(email)
  {
    assert Lower(Upper(email)) == Lower(email);
    ValidateIgnoresCase(Upper(email), email);
  }

  /** The check ignores whitespace around the address. */
  lemma ValidateIgnoresPadding(ws1: string, email: string, ws2: string)
    requires forall k :: 0 <= k < |ws1| ==> IsSpace(ws1[k])
    requires forall k :: 0 <= k < |ws2| ==> IsSpace(ws2[k])
    ensures ValidateEmailDomain(ws1 + email + ws2) == ValidateEmailDomain(email)
  {
    LowerAppend(ws1 + email, ws2);
    LowerAppend(ws1, email);
    assert Lower(ws1) == ws1 && Lower(ws2) == ws2;
    StripPadded(ws1, Lower(email), ws2);
    if email == "" {
      assert Lower(email) == "";
      assert Strip(Lower(email)) == "";
    }
  }

  // ---------------------------------------------------------------------------
  // Regular-expression building blocks
  // ---------------------------------------------------------------------------

  /** The end of the maximal whitespace run starting at `i` (what a greedy `\s*` consumes). */
  function SpaceRunEnd(s: string, i: nat): (j: nat)
    requires i <= |s|
    ensures i <= j <= |s|
    ensures forall k :: i <= k < j ==> IsSpace(s[k])
    ensures j == |s| || !IsSpace(s[j])
    decreases |s| - i
  {
    if i < |s| && IsSpace(s[i]) then SpaceRunEnd(s, i + 1) else i
  }

  /** A character of `[A-Za-z0-9\-]`. */
  predicate IsRoomChar(c: char) {
    ('a' <= c <= 'z') || ('A' <= c <= 'Z') || IsDigit(c) || c == '-'
  }

  /** The end of the maximal run of room characters starting at `i`. */
  function RoomRunEnd(s: string, i: nat): (j: nat)
    requires i <= |s|
    ensures i <= j <= |s|
    ensures forall k :: i <= k < j ==> IsRoomChar(s[k])
    ensures j == |s| || !IsRoomChar(s[j])
    decreases |s| - i
  {
    if i < |s| && IsRoomChar(s[i]) then RoomRunEnd(s, i + 1) else i
  }

  /** `n` digits start at `i`. */
  predicate DigitsAt(s: string, i: int, n: nat) {
    0 <= i && i + n <= |s| && forall k :: i <= k < i + n ==> IsDigit(s[k])
  }

  /**
   * The leftmost index at or after `i` where `at` reports a match, with the
   * match's end (the way `re.search` tries start positions).
   */
  function Leftmost(s: string, i: nat, at: nat -> Option<nat>): (r: Option<(nat, nat)>)
    requires i <= |s| + 1
    ensures r.Some? ==> i <= r.value.0 <= |s| && at(r.value.0) == Some(r.value.1)
    ensures r.Some? ==> forall k :: i <= k < r.value.0 ==> at(k).None?
    ensures r.None? ==> forall k :: i <= k <= |s| ==> at(k).None?
    decreases |s| + 1 - i
  {
    if i > |s| then None
    else match at(i)
         case Some(e) => Some((i, e))
         case None => Leftmost(s, i + 1, at)
  }

  // ---------------------------------------------------------------------------
  // Room, phone and address
  // ---------------------------------------------------------------------------

  /** `\bRoom\s+[A-Za-z0-9\-]+` (case-insensitive) matches at `i`: the end of the match. */
  function RoomAt(s: string, i: nat): (r: Option<nat>)
    ensures r.Some? ==> i + 4 < r.value <= |s|
  {
    if i + 4 <= |s| && Lower(s[i..i + 4]) == "room" && (i == 0 || !IsWordChar(s[i - 1])) then
      var w := SpaceRunEnd(s, i + 4);
      var e := RoomRunEnd(s, w);
      if i + 4 < w < e then Some(e) else None
    else None
  }

  /** `\(\d{3}\)\s*\d{3}-\d{4}` matches at `i`: the end of the match. */
  function PhoneAt(s: string, i: nat): (r: Option<nat>)
    ensures r.Some? ==> i < r.value <= |s|
  {
    if i + 5 <= |s| && s[i] == '(' && DigitsAt(s, i + 1, 3) && s[i + 4] == ')' then
      var w := SpaceRunEnd(s, i + 5);
      if DigitsAt(s, w, 3) && w + 3 < |s| && s[w + 3] == '-' && DigitsAt(s, w + 4, 4) then Some(w + 8) else None
    else None
  }

  const ADDRESS_HEAD := "24 Beacon St."

  /** `Boston,\s*MA\s*\d{5}` matches at `p`: the end of the match. */
  function BostonTailAt(s: string, p: nat): (r: Option<nat>)
    ensures r.Some? ==> p < r.value <= |s|
  {
    if p + 7 <= |s| && s[p..p + 7] == "Boston," then
      var w := SpaceRunEnd(s, p + 7);
      if w + 2 <= |s| && s[w..w + 2] == "MA" then
        var w2 := SpaceRunEnd(s, w + 2);
        if DigitsAt(s, w2, 5) then Some(w2 + 5) else None
      else None
    else None
  }

  /** The first line break at or after `i`, or the end of the text. */
  function LineEnd(s: string, i: nat): (j: nat)
    requires i <= |s|
    ensures i <= j <= |s|
    ensures forall k :: i <= k < j ==> s[k] != '\n'
    ensures j == |s| || s[j] == '\n'
    decreases |s| - i
  {
    if i < |s| && s[i] != '\n' then LineEnd(s, i + 1) else i
  }

  /** The largest `p` in `[lo, hi]` where `at` matches, with the match's end (a greedy `.+` backing off). */
  function Last(lo: nat, hi: nat, at: nat -> Option<nat>): (r: Option<(nat, nat)>)
    ensures r.Some? ==> lo <= r.value.0 <= hi && at(r.value.0) == Some(r.value.1)
    ensures r.Some? ==> forall p :: r.value.0 < p <= hi ==> at(p).None?
    ensures r.None? ==> forall p :: lo <= p <= hi ==> at(p).None?
    decreases hi
  {
    if hi < lo then None
    else match at(hi)
         case Some(e) => Some((hi, e))
         case None => if hi == 0 then None else Last(lo, hi - 1, at)
  }

  /** `24 Beacon St\..+Boston,\s*MA\s*\d{5}` matches at `i`: the end of the match (`.` stops at a line break). */
  function AddressAt(s: string, i: nat): (r: Option<nat>)
    ensures r.Some? ==> i < r.value <= |s|
  {
    if i + |ADDRESS_HEAD| < |s| && s[i..i + |ADDRESS_HEAD|] == ADDRESS_HEAD then
      var lim := LineEnd(s, i + |ADDRESS_HEAD|);
      match Last(i + |ADDRESS_HEAD| + 1, lim, p => BostonTailAt(s, p))
      case Some((_, e)) => Some(e)
      case None => None
    else None
  }

  /** The text of the leftmost match, if any. */
  function Search(s: string, at: nat -> Option<nat>): (r: Option<string>)
    requires forall i :: 0 <= i <= |s| && at(i).Some? ==> i <= at(i).value <= |s|
  {
    match Leftmost(s, 0, at)
    case Some((a, b)) => Some(s[a..b])
    case None => None
  }

  function Room(s: string): Option<string> {
    Search(s, i => RoomAt(s, i))
  }

  function Phone(s: string): Option<string> {
    Search(s, i => PhoneAt(s, i))
  }

  function FullAddress(s: string): Option<string> {
    Search(s, i => AddressAt(s, i))
  }

  /** The address written when the block names Boston and a room but no full address line. */
  function FallbackAddress(room: string): string {
    "24 Beacon St. " + room + " Boston, MA 02133"
  }

  /** What `extract_contact_info` returns for a contact block. */
  datatype ContactInfo = ContactInfo(room: Option<string>, address: Option<string>, phone: Option<string>)

  /** `extract_contact_info`. */
  function ExtractContactInfo(text: string): (r: ContactInfo)
    ensures r.room == Room(text) && r.phone == Phone(text)
    ensures !Contains(text, "Boston") ==> r.address.None?
    ensures Contains(text, "Boston") && FullAddress(text).Some? ==> r.address == FullAddress(text)
    ensures Contains(text, "Boston") && FullAddress(text).None? && r.room.Some? ==>
              r.address == Some(FallbackAddress(r.room.value))
    ensures FullAddress(text).None? && r.room.None? ==> r.address.None?
  {
    var room := Room(text);
    var address :=
      if Contains(text, "Boston") then
        match FullAddress(text)
        case Some(m) => Some(m)
        case None => if room.Some? then Some(FallbackAddress(room.value)) else None
      else None;
    ContactInfo(room, address, Phone(text))
  }

  /** A room read from a block begins with the word "Room" (in any letter case), then whitespace and the room. */
  lemma RoomShape(text: string)
    requires Room(text).Some?
    ensures var r := Room(text).value;
            |r| > 5 && Lower(r[..4]) == "room" && IsSpace(r[4]) && IsRoomChar(r[|r| - 1])
  {
    var m := Leftmost(text, 0, i => RoomAt(text, i)).value;
    var (a, b) := m;
    var r := text[a..b];
    assert r[..4] == text[a..a + 4];
    var w := SpaceRunEnd(text, a + 4);
    assert r[4] == text[a + 4];
    assert b == RoomRunEnd(text, w);
    assert r[|r| - 1] == text[b - 1];
  }

  /** A block that opens with "Room", a space and a room number yields that room. */
  lemma RoomRoundTrip(number: string, rest: string)
    requires |number| > 0 && forall k :: 0 <= k < |number| ==> IsRoomChar(number[k])
    requires |rest| == 0 || !IsRoomChar(rest[0])
    ensures Room("Room " + number + rest) == Some("Room " + number)
  {
    var s := "Room " + number + rest;
    assert s[..4] == "Room";
    assert Lower("Room") == "room";
    assert s[4] == ' ';
    assert SpaceRunEnd(s, 5) == 5 by {
      assert s[5] == number[0];
    }
    assert SpaceRunEnd(s, 4) == 5;
    var e := 5 + |number|;
    forall k | 5 <= k < e
      ensures IsRoomChar(s[k])
    {
      assert s[k] == number[k - 5];
    }
    if |rest| > 0 {
      assert s[e] == rest[0];
    }
    RoomRunEndFrom(s, 5, e);
    assert RoomAt(s, 0) == Some(e);
    assert s[0..e] == "Room " + number;
  }

  /** The room run starting at `i` ends at `e` when the run is exactly `s[i..e]`. */
  lemma {:induction false} RoomRunEndFrom(s: string, i: nat, e: nat)
    requires i <= e <= |s|
    requires forall k :: i <= k < e ==> IsRoomChar(s[k])
    requires e == |s| || !IsRoomChar(s[e])
    ensures RoomRunEnd(s, i) == e
    decreases e - i
  {
    if i < e {
      RoomRunEndFrom(s, i + 1, e);
    }
  }

  /** A block without "Boston" never reports an address, and one with Boston and only a room gets the fallback. */
  lemma FallbackAddressExample(number: string, rest: string)
    requires |number| > 0 && forall k :: 0 <= k < |number| ==> IsRoomChar(number[k])
    requires |rest| == 0 || !IsRoomChar(rest[0])
    requires Contains("Room " + number + rest, "Boston")
    requires FullAddress("Room " + number + rest).None?
    ensures ExtractContactInfo("Room " + number + rest).address == Some("24 Beacon St. Room " + number + " Boston, MA 02133")
  {
    RoomRoundTrip(number, rest);
    assert FallbackAddress("Room " + number) == "24 Beacon St. Room " + number + " Boston, MA 02133";
  }
}
