/**
 * The records the compliance engine passes between its stages: bills at hearings,
 * the deadline/notice status of a bill, the evidence found for a document kind,
 * and extension orders.
 */
module Models {
  import opened Wrappers

  /** A calendar date as Python's `date.toordinal()`: 0001-01-01 is day 1. */
  type Date = int

  /** `datetime.min.date()`, used for hearings whose date could not be read. */
  const DATE_MIN: Date := 1

  /** `date(1900, 1, 1)`, written for an extension order whose date could not be read. */
  const EXTENSION_PLACEHOLDER: Date := 693596

  /** A committee hearing. */
  datatype Hearing = Hearing(id: string, committeeId: string, url: string, date: Date, status: string, title: string)

  /** One bill heard at one hearing; `billId` is canonical, such as "H73" or "S197". */
  datatype BillAtHearing = BillAtHearing(
    billId: string,
    billLabel: string,
    billUrl: string,
    hearingId: string,
    hearingDate: Date,
    committeeId: string,
    hearingUrl: string)

  /** Deadlines, reporting and hearing-notice facts for one bill. */
  datatype BillStatus = BillStatus(
    billId: string,
    committeeId: string,
    hearingDate: Date,
    deadline60: Date,
    deadline90: Date,
    reportedOut: bool,
    reportedDate: Option<Date>,
    extensionUntil: Option<Date>,
    effectiveDeadline: Date,
    announcementDate: Option<Date>,
    scheduledHearingDate: Option<Date>)

  /**
   * What the resolver found for one document kind (the source's `SummaryInfo` and
   * `VoteInfo`; the vote-only fields motion, date, tallies and records are never
   * filled by the resolver and are not carried).
   */
  datatype Evidence = Evidence(
    present: bool,
    location: string,
    sourceUrl: Option<string>,
    parserModule: Option<string>,
    needsReview: bool)

  /** An extension order granting a committee more time on one bill. */
  datatype ExtensionOrder = ExtensionOrder(
    billId: string,
    committeeId: string,
    extensionDate: Date,
    url: string,
    orderType: string,
    isFallback: bool,
    isDateFallback: bool)
}
