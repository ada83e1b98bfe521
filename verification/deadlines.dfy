/** Statutory reporting deadlines and hearing-notice adequacy, as pure day arithmetic. */
module Deadlines {
  import opened Wrappers
  import opened Models

  /** The three dates `compute_deadlines` returns. */
  datatype Deadlines = Deadlines(d60: Date, d90: Date, effective: Date)

  function Min(a: int, b: int): int {
    if a <= b then a else b
  }

  function Max(a: int, b: int): int {
    if a >= b then a else b
  }

  /**
   * `compute_deadlines`: 60 and 90 days after the hearing; the effective deadline is
   * the extension clamped into [d60, d90], or d60 without an extension.
   */
  function ComputeDeadlines(hearing: Date, extensionUntil: Option<Date>): (r: Deadlines)
    ensures r.d60 == hearing + 60 && r.d90 == hearing + 90
    ensures r.d60 <= r.effective <= r.d90
    ensures extensionUntil.None? ==> r.effective == r.d60
    ensures extensionUntil.Some? && r.d60 <= extensionUntil.value <= r.d90 ==> r.effective == extensionUntil.value
    ensures extensionUntil.Some? && extensionUntil.value < r.d60 ==> r.effective == r.d60
    ensures extensionUntil.Some? && extensionUntil.value > r.d90 ==> r.effective == r.d90
  {
    var d60 := hearing + 60;
    var d90 := hearing + 90;
    match extensionUntil
    case None => Deadlines(d60, d90, d60)
    case Some(ext) => Deadlines(d60, d90, Max(Min(ext, d90), d60))
  }

  /** A later extension never moves the effective deadline earlier. */
  lemma ExtensionMonotone(hearing: Date, e1: Date, e2: Date)
    requires e1 <= e2
    ensures ComputeDeadlines(hearing, Some(e1)).effective <= ComputeDeadlines(hearing, Some(e2)).effective
  {
  }

  /** Feeding the effective deadline back in as the extension changes nothing. */
  lemma EffectiveIsFixedPoint(hearing: Date, ext: Option<Date>)
    ensures var d := ComputeDeadlines(hearing, ext);
            ComputeDeadlines(hearing, Some(d.effective)) == d
  {
  }

  /** Notice adequacy of a hearing announcement. */
  datatype NoticeStatus = InRange | OutOfRange | Missing

  /** A notice status with the gap in days between announcement and hearing, when both are known. */
  datatype Notice = Notice(status: NoticeStatus, gapDays: Option<int>)

  const DEFAULT_MIN_NOTICE_DAYS: int := 10

  /**
   * `compute_notice_status`: missing unless both dates are known; otherwise in range
   * exactly when the hearing is at least `minNoticeDays` after the announcement.
   */
  function ComputeNoticeStatus(status: BillStatus, minNoticeDays: int): (r: Notice)
    ensures r.status == Missing <==> status.announcementDate.None? || status.scheduledHearingDate.None?
    ensures r.status == Missing ==> r.gapDays.None?
    ensures r.status != Missing ==>
              r.gapDays == Some(status.scheduledHearingDate.value - status.announcementDate.value)
    ensures r.status == InRange <==> r.gapDays.Some? && r.gapDays.value >= minNoticeDays
    ensures r.status == OutOfRange <==> r.gapDays.Some? && r.gapDays.value < minNoticeDays
  {
    match (status.announcementDate, status.scheduledHearingDate)
    case (Some(announced), Some(scheduled)) =>
      var gap := scheduled - announced;
      if gap >= minNoticeDays then Notice(InRange, Some(gap)) else Notice(OutOfRange, Some(gap))
    case _ => Notice(Missing, None)
  }

  /** An earlier announcement of the same hearing never turns adequate notice into inadequate notice. */
  lemma EarlierAnnouncementNeverWorse(status: BillStatus, earlier: Date, minNoticeDays: int)
    requires status.announcementDate.Some? && earlier <= status.announcementDate.value
    requires ComputeNoticeStatus(status, minNoticeDays).status == InRange
    ensures ComputeNoticeStatus(status.(announcementDate := Some(earlier)), minNoticeDays).status == InRange
  {
  }
}
