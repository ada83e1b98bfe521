/**
 * The pure parts of the LLM confirmation helper: shortening the content sent to
 * the model, reading a yes/no/unsure decision out of its reply, and the audit
 * discipline of `make_decision` (one audit entry per call when auditing is on).
 */
module Llm {
  import opened Wrappers
  import opened Text

  // ---------------------------------------------------------------------------
  // Content truncation
  // ---------------------------------------------------------------------------

  /** Page furniture that marks where the useful part of scraped text ends, tried in this order. */
  const BOILERPLATE: seq<string> := [
    "The information contained in this website is for general information purposes only",
    "Update Testimony Either add testimony in the text field",
    "Register for MyLegislature",
    "Sign in to MyLegislature",
    "Copyright \U{00A9} 2025 The General Court of the Commonwealth of Massachusetts"
  ]

  const MAX_CHARS: nat := 200
  const MAX_WORDS: nat := 15

  /** `not content or len(content.strip()) == 0`. */
  predicate IsBlank(s: string) {
    |Strip(s)| == 0
  }

  /** The indicator occurs in `c` past its start and before its middle. */
  predicate Qualifies(c: string, indicator: string) {
    var p := Find(c, indicator);
    p.Some? && 0 < p.value < |c| / 2
  }

  /** The index of the first indicator that qualifies, if any. */
  function FirstQualifying(c: string, indicators: seq<string>): (r: Option<nat>)
    ensures r.Some? ==> r.value < |indicators| && Qualifies(c, indicators[r.value])
    ensures r.Some? ==> forall j :: 0 <= j < r.value ==> !Qualifies(c, indicators[j])
    ensures r.None? ==> forall j :: 0 <= j < |indicators| ==> !Qualifies(c, indicators[j])
  {
    if |indicators| == 0 then None
    else if Qualifies(c, indicators[0]) then Some(0)
    else match FirstQualifying(c, indicators[1..])
         case None => None
         case Some(k) => Some(k + 1)
  }

  /** `t` is a prefix of `s` and `s` of `u`, so `t` is a prefix of `u`. */
  lemma StartsWithTransitive(u: string, s: string, t: string)
    requires StartsWith(u, s) && StartsWith(s, t)
    ensures StartsWith(u, t)
  {
    assert u[..|t|] == s[..|t|];
  }

  /**
   * The boilerplate loop: the text before the first qualifying indicator, stripped,
   * or the text itself when no indicator qualifies.
   */
  function CutBoilerplate(c: string): (r: string)
    requires Normalized(c)
    ensures Normalized(r) && StartsWith(c, r)
    ensures FirstQualifying(c, BOILERPLATE).None? ==> r == c
    ensures FirstQualifying(c, BOILERPLATE).Some? ==> |r| < |c| / 2
  {
    match FirstQualifying(c, BOILERPLATE)
    case None => c
    case Some(k) =>
      var p := Find(c, BOILERPLATE[k]).value;
      NormalizedPrefix(c, p);
      StripOfNormalizedPrefix(c, p);
      Strip(c[..p])
  }

  /** `text` is `p`, `p + "."` or `p + "..."` for some prefix `p` of `c`. */
  predicate TruncationOf(text: string, c: string) {
    || StartsWith(c, text)
    || (EndsWith(text, ".") && StartsWith(c, text[..|text| - 1]))
    || (EndsWith(text, "...") && StartsWith(c, text[..|text| - 3]))
  }

  /** Strategy 1: the first one or two sentences, ending in a period, if there are two or more and they fit. */
  function SentenceCut(c: string): (r: Option<string>)
    ensures r.Some? ==> |r.value| <= MAX_CHARS && TruncationOf(r.value, c)
    ensures r.Some? ==> Contains(c, ". ")
  {
    var sentences := SplitOn(c, ". ");
    SplitOnCount(c, ". ");
    if |sentences| > 1 then
      var joined := Join(sentences[..2], ". ");
      SplitOnJoin(c, ". ");
      JoinPrefix(sentences, ". ", 2);
      var text := if EndsWith(joined, ".") then joined else joined + ".";
      assert text != joined ==> text[..|text| - 1] == joined;
      if |text| <= MAX_CHARS then Some(text) else None
    else None
  }

  /** Strategy 2: the first fifteen words and "...", if there are more than fifteen and they fit. */
  function WordCut(c: string): (r: Option<string>)
    requires Normalized(c)
    ensures r.Some? ==> |r.value| <= MAX_CHARS + 3 && TruncationOf(r.value, c)
    ensures r.Some? ==> |Words(c)| > MAX_WORDS
  {
    var words := Words(c);
    if |words| > MAX_WORDS then
      var text := Join(words[..MAX_WORDS], " ");
      CollapseOfNormalized(c);
      JoinPrefix(words, " ", MAX_WORDS);
      var r := text + "...";
      assert r[..|r| - 3] == text;
      if |text| <= MAX_CHARS then Some(r) else None
    else None
  }

  /** Strategy 3: the first two hundred characters and "...", if the text is longer. */
  function CharCut(c: string): (r: string)
    ensures |r| <= MAX_CHARS + 3 && TruncationOf(r, c)
    ensures |c| <= MAX_CHARS ==> r == c
  {
    if |c| > MAX_CHARS then
      var r := c[..MAX_CHARS] + "...";
      assert r[..|r| - 3] == c[..MAX_CHARS];
      r
    else c
  }

  /**
   * `_truncate_content`: blank input is returned as is; otherwise whitespace is
   * collapsed, trailing boilerplate cut, and the first strategy that applies wins.
   */
  function TruncateContent(s: string): (r: string)
    ensures IsBlank(s) ==> r == s
    ensures !IsBlank(s) ==> |r| <= MAX_CHARS + 3
    ensures !IsBlank(s) ==> TruncationOf(r, Collapse(s))
  {
    if IsBlank(s) then s
    else
      var collapsed := Collapse(s);
      CollapseNormalized(s);
      var c := CutBoilerplate(collapsed);
      var r := match SentenceCut(c)
               case Some(t) => t
               case None =>
                 match WordCut(c)
                 case Some(t) => t
                 case None => CharCut(c);
      TruncationWidens(r, collapsed, c);
      r
  }

  /** A truncation of a prefix of `u` is a truncation of `u`. */
  lemma TruncationWidens(text: string, u: string, c: string)
    requires StartsWith(u, c) && TruncationOf(text, c)
    ensures TruncationOf(text, u)
  {
    if StartsWith(c, text) {
      StartsWithTransitive(u, c, text);
    } else if EndsWith(text, ".") && StartsWith(c, text[..|text| - 1]) {
      StartsWithTransitive(u, c, text[..|text| - 1]);
    } else {
      StartsWithTransitive(u, c, text[..|text| - 3]);
    }
  }

  /** Short text without boilerplate, sentence breaks or many words comes back with only its whitespace collapsed. */
  lemma ShortTextOnlyCollapsed(s: string)
    requires !IsBlank(s)
    requires FirstQualifying(Collapse(s), BOILERPLATE).None?
    requires !Contains(Collapse(s), ". ")
    requires |Words(Collapse(s))| <= MAX_WORDS && |Collapse(s)| <= MAX_CHARS
    ensures TruncateContent(s) == Collapse(s)
  {
    CollapseNormalized(s);
  }

  /** Two sentences that fit are returned as they are, ending in a period. */
  lemma TwoSentencesKept(s: string)
    requires !IsBlank(s)
    requires FirstQualifying(Collapse(s), BOILERPLATE).None?
    requires Contains(Collapse(s), ". ")
    ensures var joined := Join(SplitOn(Collapse(s), ". ")[..2], ". ");
            var text := if EndsWith(joined, ".") then joined else joined + ".";
            |text| <= MAX_CHARS ==> TruncateContent(s) == text
  {
    CollapseNormalized(s);
    SplitOnCount(Collapse(s), ". ");
  }

  // ---------------------------------------------------------------------------
  // Decision parsing
  // ---------------------------------------------------------------------------

  datatype Decision = Yes | No | Unsure

  /** The last line of the reply, stripped and lower-cased. */
  function FinalLine(response: string): string {
    var lines := SplitOn(Strip(response), "\n");
    Lower(Strip(lines[|lines| - 1]))
  }

  /** The fallback when the last line is not a bare decision word: the last "yes" must come after every "no" and "unsure". */
  function FallbackDecision(t: string): Decision {
    if Contains(t, "yes") then
      var yesPos := RFind(t, "yes");
      if yesPos > RFind(t, "no") && yesPos > RFind(t, "unsure") then Yes else Unsure
    else if Contains(t, "no") then No
    else Unsure
  }

  /** Reading the reply: a bare final line decides, otherwise the fallback over the whole lower-cased reply. */
  function ParseDecision(response: string): (r: Decision)
    ensures FinalLine(response) == "yes" ==> r == Yes
    ensures FinalLine(response) == "no" ==> r == No
    ensures FinalLine(response) == "unsure" ==> r == Unsure
    ensures FinalLine(response) !in {"yes", "no", "unsure"} ==> r == FallbackDecision(Strip(Lower(response)))
  {
    var line := FinalLine(response);
    if line == "yes" then Yes
    else if line == "no" then No
    else if line == "unsure" then Unsure
    else FallbackDecision(Strip(Lower(response)))
  }

  /** Some "yes" has neither a "no" nor an "unsure" starting at or after it. */
  ghost predicate YesComesLast(t: string) {
    exists i :: OccursAt(t, "yes", i)
      && (forall j :: i <= j ==> !OccursAt(t, "no", j) && !OccursAt(t, "unsure", j))
  }

  /** The fallback answers yes exactly when a "yes" comes after every "no" and "unsure". */
  lemma FallbackYesIff(t: string)
    ensures FallbackDecision(t) == Yes <==> YesComesLast(t)
  {
    var y := RFind(t, "yes");
    if FallbackDecision(t) == Yes {
      assert OccursAt(t, "yes", y);
      forall j | y <= j
        ensures !OccursAt(t, "no", j) && !OccursAt(t, "unsure", j)
      {
      }
    }
    if YesComesLast(t) {
      var i :| OccursAt(t, "yes", i)
        && (forall j :: i <= j ==> !OccursAt(t, "no", j) && !OccursAt(t, "unsure", j));
      ContainsIff(t, "yes", i);
      assert y >= i;
      var n := RFind(t, "no");
      var u := RFind(t, "unsure");
      assert n >= 0 ==> OccursAt(t, "no", n);
      assert u >= 0 ==> OccursAt(t, "unsure", u);
    }
  }

  /** The fallback answers no exactly when there is a "no" and no "yes" at all. */
  lemma FallbackNoIff(t: string)
    ensures FallbackDecision(t) == No <==> !Contains(t, "yes") && Contains(t, "no")
  {
  }

  // ---------------------------------------------------------------------------
  // make_decision and its audit trail
  // ---------------------------------------------------------------------------

  /**
   * The LLM settings `make_decision` consults. `promptFormats` says whether the
   * configured prompt's `str.format(content=…, doc_type=…, bill_id=…)` succeeds; an
   * unknown placeholder or a stray brace makes it raise.
   */
  datatype LlmConfig = LlmConfig(enabled: bool, auditEnabled: bool, promptFormats: bool)

  /** The exception that escapes `make_decision`: formatting the prompt raised before the request. */
  datatype LlmFailure = PromptNotFormattable

  /** What the generate request produced: a status code with the reply's "response" text, or an exception message. */
  datatype Reply = Http(status: int, response: string) | Raised(message: string)

  /** One audit record; `rawResponse` tags the path taken. */
  datatype AuditEntry = AuditEntry(
    billId: string,
    docType: string,
    content: string,
    limitedContent: string,
    decision: Option<Decision>,
    rawResponse: string)

  /** `_log_audit_entry`: one entry when auditing is on, none otherwise. */
  function Audit(cfg: LlmConfig, content: string, docType: string, billId: string,
                 decision: Option<Decision>, raw: string): (log: seq<AuditEntry>)
    ensures |log| == (if cfg.auditEnabled then 1 else 0)
  {
    if cfg.auditEnabled then [AuditEntry(billId, docType, content, TruncateContent(content), decision, raw)] else []
  }

  /** The "raw_response" recorded for each path of `make_decision`. */
  function RawTag(cfg: LlmConfig, available: bool, reply: Reply): string {
    if !cfg.enabled then "disabled"
    else if !available then "unavailable"
    else match reply
         case Raised(msg) => "exception_" + msg
         case Http(code, text) => if code == 200 then Strip(text) else "http_error_" + IntToString(code)
  }

  /**
   * `make_decision`, with the availability probe and the generate request passed in.
   * When the LLM is enabled and available, the prompt is formatted outside the
   * request's exception handler, so a prompt that does not format escapes with no
   * audit entry. Otherwise only a status-200 reply yields a decision, and every
   * path logs exactly once.
   */
  function MakeDecision(cfg: LlmConfig, available: bool, reply: Reply,
                        content: string, docType: string, billId: string)
    : (r: Result<(Option<Decision>, seq<AuditEntry>), LlmFailure>)
    ensures r.Err? <==> cfg.enabled && available && !cfg.promptFormats
    ensures r.Ok? ==> (r.value.0.Some? <==> cfg.enabled && available && reply.Http? && reply.status == 200)
    ensures r.Ok? && r.value.0.Some? ==> r.value.0.value == ParseDecision(Strip(reply.response))
    ensures r.Ok? ==> |r.value.1| == (if cfg.auditEnabled then 1 else 0)
    ensures r.Ok? ==> forall e :: e in r.value.1 ==>
              (e.decision == r.value.0 && e.content == content && e.limitedContent == TruncateContent(content))
    ensures r.Ok? ==> forall e :: e in r.value.1 ==> (e.rawResponse == RawTag(cfg, available, reply))
  {
    if !cfg.enabled then Ok((None, Audit(cfg, content, docType, billId, None, "disabled")))
    else if !available then Ok((None, Audit(cfg, content, docType, billId, None, "unavailable")))
    else if !cfg.promptFormats then Err(PromptNotFormattable)
    else match reply
         case Raised(msg) => Ok((None, Audit(cfg, content, docType, billId, None, "exception_" + msg)))
         case Http(code, text) =>
           if code == 200 then
             var d := ParseDecision(Strip(text));
             Ok((Some(d), Audit(cfg, content, docType, billId, Some(d), Strip(text))))
           else Ok((None, Audit(cfg, content, docType, billId, None, "http_error_" + IntToString(code))))
  }
}
