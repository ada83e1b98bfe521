/**
 * The compliance classifier: hearing notice is a deal-breaker, Senate bills are
 * judged on summaries and votes alone, House bills on reporting, votes and
 * summaries once the effective deadline has passed.
 */
module Compliance {
  import opened Wrappers
  import opened Text
  import opened Models
  import opened Deadlines

  datatype ComplianceState = Compliant | NonCompliant | Incomplete | Unknown

  /** The classifier's verdict for one bill, with the inputs it was computed from. */
  datatype BillCompliance = BillCompliance(
    billId: string,
    committeeId: string,
    hearingDate: Date,
    summary: Evidence,
    votes: Evidence,
    status: BillStatus,
    state: ComplianceState,
    reason: string)

  /** A bill is treated as a Senate bill when its upper-cased id starts with "S". */
  predicate IsSenateBill(billId: string) {
    |billId| > 0 && UpperChar(billId[0]) == 'S'
  }

  const NOT_REPORTED: string := "not reported out"
  const NO_VOTES: string := "no votes posted"
  const NO_SUMMARIES: string := "no summaries posted"

  /** The position of a missing-factor phrase in the fixed reporting order. */
  function FactorRank(f: string): int {
    if f == NOT_REPORTED then 0 else if f == NO_VOTES then 1 else 2
  }

  function Count(b: bool): nat {
    if b then 1 else 0
  }

  /** How many of the three requirements are met. */
  function PresentCount(reportedOut: bool, votesPresent: bool, summaryPresent: bool): nat {
    Count(reportedOut) + Count(votesPresent) + Count(summaryPresent)
  }

  /** The phrases for the requirements that are not met, in the order reported, votes, summaries. */
  function MissingFactors(reportedOut: bool, votesPresent: bool, summaryPresent: bool): (r: seq<string>)
    ensures |r| + PresentCount(reportedOut, votesPresent, summaryPresent) == 3
    ensures NOT_REPORTED in r <==> !reportedOut
    ensures NO_VOTES in r <==> !votesPresent
    ensures NO_SUMMARIES in r <==> !summaryPresent
    ensures forall i, j :: 0 <= i < j < |r| ==> FactorRank(r[i]) < FactorRank(r[j])
  {
    (if reportedOut then [] else [NOT_REPORTED])
    + (if votesPresent then [] else [NO_VOTES])
    + (if summaryPresent then [] else [NO_SUMMARIES])
  }

  /** `_get_missing_requirements`: the missing-factor phrases joined by ", ". */
  function MissingRequirements(reportedOut: bool, votesPresent: bool, summaryPresent: bool): (r: string)
    ensures r == "" <==> reportedOut && votesPresent && summaryPresent
  {
    var fs := MissingFactors(reportedOut, votesPresent, summaryPresent);
    JoinNonEmpty(fs, ", ");
    Join(fs, ", ")
  }

  lemma JoinNonEmpty(ws: seq<string>, sep: string)
    ensures |ws| > 0 && |ws[0]| > 0 ==> |Join(ws, sep)| > 0
  {
    if |ws| > 0 {
      JoinStartsWithFirst(ws, sep);
    }
  }

  /** The " (N days)" tail every adequate-notice reason ends with. */
  function NoticeTail(gap: int): string {
    "adequate notice (" + IntToString(gap) + " days)"
  }

  function InsufficientReason(gap: int, minNoticeDays: int): string {
    "Insufficient notice: " + IntToString(gap) + " days (minimum " + IntToString(minNoticeDays) + ")"
  }

  const NO_ANNOUNCEMENT_NO_EVIDENCE: string := "No hearing announcement found and no other evidence"
  const NO_ANNOUNCEMENT: string := "No hearing announcement found"

  /** The verdict under adequate notice, as a function of the facts it reads. */
  function InRangeState(senate: bool, early: bool, reportedOut: bool, votesPresent: bool, summaryPresent: bool)
    : ComplianceState
  {
    if senate then
      if votesPresent && summaryPresent then Compliant
      else if votesPresent || summaryPresent then Incomplete
      else NonCompliant
    else if early then Unknown
    else match PresentCount(reportedOut, votesPresent, summaryPresent)
         case 3 => Compliant
         case 2 => Incomplete
         case _ => NonCompliant
  }

  /** Text ending in `tail` ends with it. */
  lemma EndsWithTail(head: string, tail: string)
    requires |tail| > 0
    ensures EndsWith(head + tail, tail) && |head + tail| > 0
  {
    assert (head + tail)[|head|..] == tail;
  }

  /** The state under adequate notice, and the reason's words before the notice tail. */
  function VerdictHead(billId: string, status: BillStatus, summary: Evidence, votes: Evidence, today: Date)
    : (r: (ComplianceState, string))
    ensures r.0 == InRangeState(IsSenateBill(billId), today <= status.effectiveDeadline,
                                status.reportedOut, votes.present, summary.present)
  {
    if IsSenateBill(billId) then
      if votes.present && summary.present then
        (Compliant, "Senate bill: summaries and votes posted, ")
      else if votes.present || summary.present then
        var missing := if !summary.present then "summaries" else "votes";
        (Incomplete, "Senate bill: " + missing + " missing, ")
      else
        (NonCompliant, "Senate bill: no votes or summaries posted, ")
    else if today <= status.effectiveDeadline then
      (Unknown, "Before deadline, ")
    else
      var n := PresentCount(status.reportedOut, votes.present, summary.present);
      var missing := MissingRequirements(status.reportedOut, votes.present, summary.present);
      if n == 3 then
        (Compliant, "All requirements met: reported out, votes posted, summaries posted, ")
      else if n == 2 then
        (Incomplete, "One requirement missing: " + missing + ", ")
      else
        (NonCompliant, "Factors: " + missing + ", ")
  }

  /** The state and reason under adequate notice with `gap` days. */
  function JudgeWithNotice(billId: string, status: BillStatus, summary: Evidence, votes: Evidence,
                           gap: int, today: Date): (r: (ComplianceState, string))
    ensures r.0 == InRangeState(IsSenateBill(billId), today <= status.effectiveDeadline,
                                status.reportedOut, votes.present, summary.present)
    ensures |r.1| > 0 && EndsWith(r.1, NoticeTail(gap))
  {
    var head := VerdictHead(billId, status, summary, votes, today);
    assert |NoticeTail(gap)| > 0;
    EndsWithTail(head.1, NoticeTail(gap));
    (head.0, head.1 + NoticeTail(gap))
  }

  /**
   * `classify`, with `today` passed in. The contract is the decision table of the
   * business rules; the lemmas below relate verdicts across inputs.
   */
  function Classify(billId: string, committeeId: string, status: BillStatus, summary: Evidence,
                    votes: Evidence, minNoticeDays: int, today: Date): (r: BillCompliance)
    ensures r.billId == billId && r.committeeId == committeeId && r.hearingDate == status.hearingDate
    ensures r.summary == summary && r.votes == votes && r.status == status
    ensures |r.reason| > 0
    // notice shorter than the minimum decides alone
    ensures ComputeNoticeStatus(status, minNoticeDays).status == OutOfRange ==>
              r.state == NonCompliant
              && r.reason == InsufficientReason(ComputeNoticeStatus(status, minNoticeDays).gapDays.value, minNoticeDays)
    // no announcement: unknown without evidence, non-compliant with it
    ensures ComputeNoticeStatus(status, minNoticeDays).status == Missing ==>
              if status.reportedOut || votes.present || summary.present
              then r.state == NonCompliant && r.reason == NO_ANNOUNCEMENT
              else r.state == Unknown && r.reason == NO_ANNOUNCEMENT_NO_EVIDENCE
    // adequate notice, Senate bill: summaries and votes only
    ensures ComputeNoticeStatus(status, minNoticeDays).status == InRange && IsSenateBill(billId) ==>
              r.state == (if votes.present && summary.present then Compliant
                          else if votes.present || summary.present then Incomplete
                          else NonCompliant)
    // adequate notice, other bills: nothing is decided before the deadline
    ensures ComputeNoticeStatus(status, minNoticeDays).status == InRange && !IsSenateBill(billId) ==>
              r.state == (if today <= status.effectiveDeadline then Unknown
                          else match PresentCount(status.reportedOut, votes.present, summary.present)
                               case 3 => Compliant
                               case 2 => Incomplete
                               case _ => NonCompliant)
    ensures ComputeNoticeStatus(status, minNoticeDays).status == InRange ==>
              EndsWith(r.reason, NoticeTail(ComputeNoticeStatus(status, minNoticeDays).gapDays.value))
  {
    var notice := ComputeNoticeStatus(status, minNoticeDays);
    var (state, reason) :=
      match notice.status
      case OutOfRange => (NonCompliant, InsufficientReason(notice.gapDays.value, minNoticeDays))
      case Missing =>
        if status.reportedOut || votes.present || summary.present then (NonCompliant, NO_ANNOUNCEMENT)
        else (Unknown, NO_ANNOUNCEMENT_NO_EVIDENCE)
      case InRange => JudgeWithNotice(billId, status, summary, votes, notice.gapDays.value, today);
    BillCompliance(billId, committeeId, status.hearingDate, summary, votes, status, state, reason)
  }

  // ---------------------------------------------------------------------------
  // Properties relating verdicts across inputs
  // ---------------------------------------------------------------------------

  /** Better is larger: non-compliant, then incomplete, then compliant. */
  function Rank(s: ComplianceState): int {
    match s
    case NonCompliant => 0
    case Incomplete => 1
    case Compliant => 2
    case Unknown => -1
  }

  /** A compliant verdict needs adequate notice, summaries and votes, and for non-Senate bills a report after the deadline. */
  lemma CompliantNeedsEvidence(billId: string, committeeId: string, status: BillStatus, summary: Evidence,
                               votes: Evidence, minNoticeDays: int, today: Date)
    requires Classify(billId, committeeId, status, summary, votes, minNoticeDays, today).state == Compliant
    ensures ComputeNoticeStatus(status, minNoticeDays).status == InRange
    ensures summary.present && votes.present
    ensures !IsSenateBill(billId) ==> status.reportedOut && today > status.effectiveDeadline
  {
  }

  /**
   * With adequate notice, adding evidence (a report, votes, summaries) never makes a
   * decided verdict worse.
   */
  lemma MoreEvidenceNeverWorse(billId: string, committeeId: string, status: BillStatus,
                               summary: Evidence, votes: Evidence, summary': Evidence, votes': Evidence,
                               reportedOut': bool, minNoticeDays: int, today: Date)
    requires ComputeNoticeStatus(status, minNoticeDays).status == InRange
    requires summary.present ==> summary'.present
    requires votes.present ==> votes'.present
    requires status.reportedOut ==> reportedOut'
    ensures var before := Classify(billId, committeeId, status, summary, votes, minNoticeDays, today).state;
            var after := Classify(billId, committeeId, status.(reportedOut := reportedOut'), summary', votes',
                                  minNoticeDays, today).state;
            before != Unknown ==> Rank(before) <= Rank(after)
  {
    var status' := status.(reportedOut := reportedOut');
    assert ComputeNoticeStatus(status', minNoticeDays) == ComputeNoticeStatus(status, minNoticeDays);
    ClassifyInRange(billId, committeeId, status, summary, votes, minNoticeDays, today);
    ClassifyInRange(billId, committeeId, status', summary', votes', minNoticeDays, today);
    InRangeStateMonotone(IsSenateBill(billId), today <= status.effectiveDeadline,
                         status.reportedOut, votes.present, summary.present,
                         reportedOut', votes'.present, summary'.present);
  }

  lemma ClassifyInRange(billId: string, committeeId: string, status: BillStatus, summary: Evidence,
                        votes: Evidence, minNoticeDays: int, today: Date)
    requires ComputeNoticeStatus(status, minNoticeDays).status == InRange
    ensures Classify(billId, committeeId, status, summary, votes, minNoticeDays, today).state
         == InRangeState(IsSenateBill(billId), today <= status.effectiveDeadline,
                         status.reportedOut, votes.present, summary.present)
  {
  }

  lemma InRangeStateMonotone(senate: bool, early: bool, r: bool, v: bool, s: bool, r': bool, v': bool, s': bool)
    requires (r ==> r') && (v ==> v') && (s ==> s')
    ensures InRangeState(senate, early, r, v, s) != Unknown ==>
              Rank(InRangeState(senate, early, r, v, s)) <= Rank(InRangeState(senate, early, r', v', s'))
  {
  }

  /** Without an announcement, finding evidence turns an unknown verdict into a non-compliant one. */
  lemma MissingNoticeWithEvidenceIsNonCompliant(billId: string, committeeId: string, status: BillStatus,
                                                summary: Evidence, votes: Evidence, minNoticeDays: int, today: Date)
    requires status.announcementDate.None?
    ensures var r := Classify(billId, committeeId, status, summary, votes, minNoticeDays, today);
            r.state == Unknown <==> !(status.reportedOut || votes.present || summary.present)
    ensures var r := Classify(billId, committeeId, status, summary, votes, minNoticeDays, today);
            r.state in {Unknown, NonCompliant}
  {
  }

  /**
   * With adequate notice, Senate bills are judged without the reporting flag, the
   * effective deadline or the current date. (Without an announcement the reporting
   * flag still counts as evidence, for Senate bills too.)
   */
  lemma SenateIgnoresDeadline(billId: string, committeeId: string, status: BillStatus, summary: Evidence,
                              votes: Evidence, minNoticeDays: int, today: Date,
                              reportedOut': bool, effective': Date, today': Date)
    requires IsSenateBill(billId)
    requires ComputeNoticeStatus(status, minNoticeDays).status == InRange
    ensures Classify(billId, committeeId, status, summary, votes, minNoticeDays, today).state
         == Classify(billId, committeeId, status.(reportedOut := reportedOut', effectiveDeadline := effective'),
                     summary, votes, minNoticeDays, today').state
  {
    var status' := status.(reportedOut := reportedOut', effectiveDeadline := effective');
    assert ComputeNoticeStatus(status', minNoticeDays) == ComputeNoticeStatus(status, minNoticeDays);
  }

  /** Without adequate notice the verdict never depends on the deadline or the current date. */
  lemma InadequateNoticeIgnoresDeadline(billId: string, committeeId: string, status: BillStatus, summary: Evidence,
                                        votes: Evidence, minNoticeDays: int, today: Date,
                                        effective': Date, today': Date)
    requires ComputeNoticeStatus(status, minNoticeDays).status != InRange
    ensures Classify(billId, committeeId, status, summary, votes, minNoticeDays, today)
         == Classify(billId, committeeId, status, summary, votes, minNoticeDays, today')
    ensures Classify(billId, committeeId, status, summary, votes, minNoticeDays, today).state
         == Classify(billId, committeeId, status.(effectiveDeadline := effective'), summary, votes,
                     minNoticeDays, today).state
  {
    var status' := status.(effectiveDeadline := effective');
    assert ComputeNoticeStatus(status', minNoticeDays) == ComputeNoticeStatus(status, minNoticeDays);
  }

  /** `t` occurs inside `a + t + b`. */
  lemma ContainsInfix(a: string, t: string, b: string)
    ensures Contains(a + t + b, t)
  {
    var s := a + t + b;
    assert s[|a|..|a| + |t|] == t;
    ContainsIff(s, t, |a|);
  }

  /** An insufficient-notice reason quotes both the gap and the minimum. */
  lemma InsufficientReasonQuotesNumbers(gap: int, minNoticeDays: int)
    ensures Contains(InsufficientReason(gap, minNoticeDays), IntToString(gap))
    ensures Contains(InsufficientReason(gap, minNoticeDays), IntToString(minNoticeDays))
  {
    var g := IntToString(gap);
    var m := IntToString(minNoticeDays);
    assert InsufficientReason(gap, minNoticeDays) == "Insufficient notice: " + g + (" days (minimum " + m + ")");
    ContainsInfix("Insufficient notice: ", g, " days (minimum " + m + ")");
    assert InsufficientReason(gap, minNoticeDays) == ("Insufficient notice: " + g + " days (minimum ") + m + ")";
    ContainsInfix("Insufficient notice: " + g + " days (minimum ", m, ")");
  }

  /** A House verdict after the deadline names each missing requirement in its reason. */
  lemma ReasonNamesMissingRequirements(billId: string, committeeId: string, status: BillStatus, summary: Evidence,
                                       votes: Evidence, minNoticeDays: int, today: Date)
    requires ComputeNoticeStatus(status, minNoticeDays).status == InRange
    requires !IsSenateBill(billId) && today > status.effectiveDeadline
    requires PresentCount(status.reportedOut, votes.present, summary.present) < 3
    ensures var r := Classify(billId, committeeId, status, summary, votes, minNoticeDays, today);
            Contains(r.reason, MissingRequirements(status.reportedOut, votes.present, summary.present))
  {
    var missing := MissingRequirements(status.reportedOut, votes.present, summary.present);
    var gap := ComputeNoticeStatus(status, minNoticeDays).gapDays.value;
    var lead := FactorsLead(PresentCount(status.reportedOut, votes.present, summary.present));
    ClassifyReason(billId, committeeId, status, summary, votes, minNoticeDays, today);
    VerdictHeadNamesFactors(billId, status, summary, votes, today);
    ContainsInfix(lead, missing, ", " + NoticeTail(gap));
    assert lead + missing + ", " + NoticeTail(gap) == lead + missing + (", " + NoticeTail(gap));
  }

  /** The words before the missing requirements in a House verdict with `n` present. */
  function FactorsLead(n: nat): string {
    if n == 2 then "One requirement missing: " else "Factors: "
  }

  lemma ClassifyReason(billId: string, committeeId: string, status: BillStatus, summary: Evidence,
                       votes: Evidence, minNoticeDays: int, today: Date)
    requires ComputeNoticeStatus(status, minNoticeDays).status == InRange
    ensures Classify(billId, committeeId, status, summary, votes, minNoticeDays, today).reason
         == VerdictHead(billId, status, summary, votes, today).1 + NoticeTail(ComputeNoticeStatus(status, minNoticeDays).gapDays.value)
  {
  }

  lemma VerdictHeadNamesFactors(billId: string, status: BillStatus, summary: Evidence, votes: Evidence, today: Date)
    requires !IsSenateBill(billId) && today > status.effectiveDeadline
    requires PresentCount(status.reportedOut, votes.present, summary.present) < 3
    ensures VerdictHead(billId, status, summary, votes, today).1
         == FactorsLead(PresentCount(status.reportedOut, votes.present, summary.present))
            + MissingRequirements(status.reportedOut, votes.present, summary.present) + ", "
  {
  }
}
