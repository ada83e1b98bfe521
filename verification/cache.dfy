/**
 * The persistent cache of per-bill facts: which parser module landed for each
 * document kind (and whether a person confirmed it), bill titles, extension data,
 * hearing announcements and bill URLs, plus committee contacts. Entries are JSON
 * values so that legacy bare-string entries, structured entries and missing keys
 * can all be told apart.
 */
module ParserCache {
  import opened Wrappers

  /** A JSON value as loaded from the cache file (numbers are integers in this model). */
  datatype Json = JNull | JBool(b: bool) | JNum(n: int) | JStr(s: string) | JList(items: seq<Json>) | JObject(fields: map<string, Json>)

  /** Python truthiness of a decoded JSON value. */
  predicate Truthy(j: Json) {
    match j
    case JNull => false
    case JBool(b) => b
    case JNum(n) => n != 0
    case JStr(s) => |s| > 0
    case JList(xs) => |xs| > 0
    case JObject(f) => |f| > 0
  }

  /** The entries recorded for one bill, keyed by "summary", "votes", "title", "extensions", ... */
  type Slot = map<string, Json>

  /** The cache document: the "bill_parsers" and "committee_contacts" objects. */
  datatype Cache = Cache(billParsers: map<string, Slot>, committeeContacts: map<string, Json>)

  const EMPTY: Cache := Cache(map[], map[])

  /** The slot of `bill`; a bill never seen reads as an empty slot. */
  function SlotOf(c: Cache, bill: string): Slot {
    if bill in c.billParsers then c.billParsers[bill] else map[]
  }

  /** The value under `key` in the slot of `bill`, if any. */
  function Entry(c: Cache, bill: string, key: string): Option<Json> {
    var slot := SlotOf(c, bill);
    if key in slot then Some(slot[key]) else None
  }

  /** Stores `v` under `key` in the slot of `bill`, creating the slot when needed. */
  function SetEntry(c: Cache, bill: string, key: string, v: Json): (r: Cache)
    ensures Entry(r, bill, key) == Some(v)
    ensures forall b, k :: (b != bill || k != key) ==> Entry(r, b, k) == Entry(c, b, k)
    ensures r.committeeContacts == c.committeeContacts
  {
    Cache(c.billParsers[bill := SlotOf(c, bill)[key := v]], c.committeeContacts)
  }

  /** Removes `key` from the slot of `bill`. */
  function DeleteEntry(c: Cache, bill: string, key: string): (r: Cache)
    ensures Entry(r, bill, key) == None
    ensures forall b, k :: (b != bill || k != key) ==> Entry(r, b, k) == Entry(c, b, k)
    ensures r.committeeContacts == c.committeeContacts
  {
    Cache(c.billParsers[bill := SlotOf(c, bill) - {key}], c.committeeContacts)
  }

  /** The side effect of every read: `setdefault` creates an empty slot for an unseen bill. */
  function Touch(c: Cache, bill: string): (r: Cache)
    ensures bill in r.billParsers
  {
    Cache(c.billParsers[bill := SlotOf(c, bill)], c.committeeContacts)
  }

  /** The empty slot a read may create is invisible to every later read. */
  lemma TouchInvisible(c: Cache, bill: string)
    ensures forall b, k :: Entry(Touch(c, bill), b, k) == Entry(c, b, k)
  {
  }

  /** A `{"key": value}` field lookup that is absent unless the entry is an object holding the key. */
  function Field(e: Option<Json>, name: string): Option<Json> {
    match e
    case Some(JObject(f)) => if name in f then Some(f[name]) else None
    case _ => None
  }

  /** A string value, treating `null` and every other JSON type as absent. */
  function AsString(j: Option<Json>): Option<string> {
    match j
    case Some(JStr(s)) => Some(s)
    case _ => None
  }

  // ---------------------------------------------------------------------------
  // Parser entries
  // ---------------------------------------------------------------------------

  /** `get_parser`: a legacy bare string is the module itself; a structured entry holds it under "module". */
  function GetParser(c: Cache, bill: string, kind: string): Option<string> {
    match Entry(c, bill, kind)
    case Some(JStr(s)) => Some(s)
    case Some(JObject(_)) => AsString(Field(Entry(c, bill, kind), "module"))
    case _ => None
  }

  /** `is_confirmed`: only a structured entry with a truthy "confirmed" counts. */
  predicate IsConfirmed(c: Cache, bill: string, kind: string) {
    var f := Field(Entry(c, bill, kind), "confirmed");
    f.Some? && Truthy(f.value)
  }

  /** The structured entry `set_parser` writes. */
  function ParserEntry(moduleName: string, confirmed: bool, now: string): Json {
    JObject(map["module" := JStr(moduleName), "confirmed" := JBool(confirmed), "updated_at" := JStr(now)])
  }

  /** `set_parser`: records the module and the confirmation flag for one bill and kind. */
  function SetParser(c: Cache, bill: string, kind: string, moduleName: string, confirmed: bool, now: string): (r: Cache)
    ensures Entry(r, bill, kind) == Some(ParserEntry(moduleName, confirmed, now))
    ensures forall b, k :: (b != bill || k != kind) ==> Entry(r, b, k) == Entry(c, b, k)
  {
    SetEntry(c, bill, kind, ParserEntry(moduleName, confirmed, now))
  }

  /** Reading back a parser entry gives the module and flag just written; nothing else changes. */
  lemma GetAfterSetParser(c: Cache, bill: string, kind: string, moduleName: string, confirmed: bool, now: string)
    ensures var r := SetParser(c, bill, kind, moduleName, confirmed, now);
            GetParser(r, bill, kind) == Some(moduleName) && IsConfirmed(r, bill, kind) == confirmed
    ensures var r := SetParser(c, bill, kind, moduleName, confirmed, now);
            forall b, k :: (b != bill || k != kind) ==>
              GetParser(r, b, k) == GetParser(c, b, k) && IsConfirmed(r, b, k) == IsConfirmed(c, b, k)
  {
    var r := SetParser(c, bill, kind, moduleName, confirmed, now);
    assert Field(Entry(r, bill, kind), "confirmed") == Some(JBool(confirmed));
    forall b, k | b != bill || k != kind
      ensures GetParser(r, b, k) == GetParser(c, b, k) && IsConfirmed(r, b, k) == IsConfirmed(c, b, k)
    {
      assert Entry(r, b, k) == Entry(c, b, k);
    }
  }

  /** A legacy bare-string entry names its module and is never confirmed; a missing entry gives nothing. */
  lemma LegacyAndMissingEntries(c: Cache, bill: string, kind: string)
    ensures Entry(c, bill, kind) == None ==> GetParser(c, bill, kind) == None && !IsConfirmed(c, bill, kind)
    ensures Entry(c, bill, kind).Some? && Entry(c, bill, kind).value.JStr? ==>
              GetParser(c, bill, kind) == Some(Entry(c, bill, kind).value.s) && !IsConfirmed(c, bill, kind)
    ensures IsConfirmed(c, bill, kind) ==> Entry(c, bill, kind).Some? && Entry(c, bill, kind).value.JObject?
  {
  }

  // ---------------------------------------------------------------------------
  // Titles, extensions, hearing announcements, bill URLs
  // ---------------------------------------------------------------------------

  /** `get_title`: a legacy bare string, or the "value" of a structured entry. */
  function GetTitle(c: Cache, bill: string): Option<string> {
    match Entry(c, bill, "title")
    case Some(JStr(s)) => Some(s)
    case Some(JObject(_)) => AsString(Field(Entry(c, bill, "title"), "value"))
    case _ => None
  }

  function SetTitle(c: Cache, bill: string, title: string, now: string): (r: Cache)
    ensures Entry(r, bill, "title").Some? && Entry(r, bill, "title").value.JObject?
    ensures forall b, k :: (b != bill || k != "title") ==> Entry(r, b, k) == Entry(c, b, k)
  {
    SetEntry(c, bill, "title", JObject(map["value" := JStr(title), "updated_at" := JStr(now)]))
  }

  /** `set_title` then `get_title` gives the title back, and a legacy bare-string title is read as is. */
  lemma TitleRoundTrip(c: Cache, bill: string, title: string, now: string)
    ensures GetTitle(SetTitle(c, bill, title, now), bill) == Some(title)
    ensures GetTitle(SetEntry(c, bill, "title", JStr(title)), bill) == Some(title)
    ensures forall b :: b != bill ==> GetTitle(SetTitle(c, bill, title, now), b) == GetTitle(c, b)
  {
    var r := SetTitle(c, bill, title, now);
    assert Field(Entry(r, bill, "title"), "value") == Some(JStr(title));
    forall b | b != bill
      ensures GetTitle(r, b) == GetTitle(c, b)
    {
      assert Entry(r, b, "title") == Entry(c, b, "title");
    }
  }

  /** `get_extension`: the extension object, or nothing when the entry is missing or not an object. */
  function GetExtension(c: Cache, bill: string): Option<map<string, Json>> {
    match Entry(c, bill, "extensions")
    case Some(JObject(f)) => Some(f)
    case _ => None
  }

  function SetExtension(c: Cache, bill: string, extensionDate: string, extensionUrl: string, now: string): (r: Cache)
    ensures forall b, k :: (b != bill || k != "extensions") ==> Entry(r, b, k) == Entry(c, b, k)
  {
    SetEntry(c, bill, "extensions",
             JObject(map["extension_date" := JStr(extensionDate), "extension_url" := JStr(extensionUrl),
                         "updated_at" := JStr(now)]))
  }

  /** `add_bill_with_extensions`: marks a bill whose order was found only through its URL. */
  function AddBillWithExtensions(c: Cache, bill: string, now: string): (r: Cache)
    ensures forall b, k :: (b != bill || k != "extensions") ==> Entry(r, b, k) == Entry(c, b, k)
  {
    SetEntry(c, bill, "extensions", JObject(map["is_fallback" := JBool(true), "updated_at" := JStr(now)]))
  }

  /**
   * An extension written by `set_extension` carries its date and URL; the marker
   * written by `add_bill_with_extensions` is a non-empty object with neither key.
   */
  lemma ExtensionEntries(c: Cache, bill: string, d: string, u: string, now: string)
    ensures var e := GetExtension(SetExtension(c, bill, d, u, now), bill);
            e.Some? && e.value["extension_date"] == JStr(d) && e.value["extension_url"] == JStr(u)
    ensures var e := GetExtension(AddBillWithExtensions(c, bill, now), bill);
            e.Some? && |e.value| > 0 && "extension_date" !in e.value && "extension_url" !in e.value
            && e.value["is_fallback"] == JBool(true)
  {
    var e := GetExtension(AddBillWithExtensions(c, bill, now), bill).value;
    assert "is_fallback" in e;
  }

  /** `get_hearing_announcement`: the announcement object, if the entry is one. */
  function GetHearingAnnouncement(c: Cache, bill: string): Option<map<string, Json>> {
    match Entry(c, bill, "hearing_announcement")
    case Some(JObject(f)) => Some(f)
    case _ => None
  }

  function OptionalString(s: Option<string>): Json {
    match s
    case Some(v) => JStr(v)
    case None => JNull
  }

  /** `set_hearing_announcement`: also records the bill URL, but only when one is given and non-empty. */
  function SetHearingAnnouncement(c: Cache, bill: string, announcementDate: Option<string>,
                                  scheduledHearingDate: Option<string>, billUrl: Option<string>, now: string): (r: Cache)
    ensures forall b, k :: (b != bill || (k != "hearing_announcement" && k != "bill_url")) ==>
              Entry(r, b, k) == Entry(c, b, k)
  {
    var c1 := if billUrl.Some? && |billUrl.value| > 0 then SetEntry(c, bill, "bill_url", JStr(billUrl.value)) else c;
    SetEntry(c1, bill, "hearing_announcement",
             JObject(map["announcement_date" := OptionalString(announcementDate),
                         "scheduled_hearing_date" := OptionalString(scheduledHearingDate),
                         "updated_at" := JStr(now)]))
  }

  function ClearHearingAnnouncement(c: Cache, bill: string): (r: Cache)
    ensures forall b, k :: (b != bill || k != "hearing_announcement") ==> Entry(r, b, k) == Entry(c, b, k)
  {
    DeleteEntry(c, bill, "hearing_announcement")
  }

  /** `get_bill_url` (string values only). */
  function GetBillUrl(c: Cache, bill: string): Option<string> {
    AsString(Entry(c, bill, "bill_url"))
  }

  function SetBillUrl(c: Cache, bill: string, url: string): (r: Cache)
    ensures forall b, k :: (b != bill || k != "bill_url") ==> Entry(r, b, k) == Entry(c, b, k)
  {
    SetEntry(c, bill, "bill_url", JStr(url))
  }

  /**
   * The announcement round-trips, the bill URL is overwritten exactly when a
   * non-empty one is given, and clearing removes the announcement only.
   */
  lemma AnnouncementRoundTrip(c: Cache, bill: string, a: Option<string>, s: Option<string>, url: Option<string>,
                              u: string, now: string)
    ensures var r := SetHearingAnnouncement(c, bill, a, s, url, now);
            var e := GetHearingAnnouncement(r, bill);
            e.Some? && e.value["announcement_date"] == OptionalString(a)
            && e.value["scheduled_hearing_date"] == OptionalString(s)
    ensures var r := SetHearingAnnouncement(c, bill, a, s, url, now);
            GetBillUrl(r, bill) == (if url.Some? && |url.value| > 0 then url else GetBillUrl(c, bill))
    ensures GetHearingAnnouncement(ClearHearingAnnouncement(c, bill), bill) == None
    ensures GetBillUrl(ClearHearingAnnouncement(c, bill), bill) == GetBillUrl(c, bill)
    ensures GetBillUrl(SetBillUrl(c, bill, u), bill) == Some(u)
  {
    var c1 := if url.Some? && |url.value| > 0 then SetEntry(c, bill, "bill_url", JStr(url.value)) else c;
    var r := SetHearingAnnouncement(c, bill, a, s, url, now);
    assert Entry(r, bill, "bill_url") == Entry(c1, bill, "bill_url");
    assert Entry(ClearHearingAnnouncement(c, bill), bill, "bill_url") == Entry(c, bill, "bill_url");
  }

  // ---------------------------------------------------------------------------
  // Committee contacts
  // ---------------------------------------------------------------------------

  function GetCommitteeContact(c: Cache, committee: string): Option<Json> {
    if committee in c.committeeContacts then Some(c.committeeContacts[committee]) else None
  }

  /** `set_committee_contact`: the given fields plus a timestamp that overrides any "updated_at" among them. */
  function SetCommitteeContact(c: Cache, committee: string, contact: map<string, Json>, now: string): (r: Cache)
    ensures r.billParsers == c.billParsers
    ensures forall other :: other != committee ==> GetCommitteeContact(r, other) == GetCommitteeContact(c, other)
  {
    Cache(c.billParsers, c.committeeContacts[committee := JObject(contact["updated_at" := JStr(now)])])
  }

  /** A stored contact keeps every field it was given, except the timestamp. */
  lemma ContactRoundTrip(c: Cache, committee: string, contact: map<string, Json>, now: string)
    ensures var e := GetCommitteeContact(SetCommitteeContact(c, committee, contact, now), committee);
            e.Some? && e.value.JObject?
            && (forall k :: k in contact && k != "updated_at" ==> k in e.value.fields && e.value.fields[k] == contact[k])
            && e.value.fields.Keys == contact.Keys + {"updated_at"}
  {
  }
}
