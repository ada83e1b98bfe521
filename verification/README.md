# Bill compliance engine — a Dafny model

This project models the core of a legislative-compliance tracker. For each bill heard
by a committee, the tracker does four things:

- it computes the statutory reporting deadlines: 60 and 90 days after the hearing,
  with any extension clamped into that window;
- it judges whether the hearing was announced early enough;
- it finds and confirms a summary and a vote record through a cost-ordered, cached
  chain of discovery parsers, with an optional LLM and a person confirming;
- it classifies the bill as compliant, incomplete, non-compliant or unknown.

Around that engine the model also covers:

- the confirmation cache, keyed by bill and kind;
- the LLM helper's content truncation, decision parsing and audit discipline;
- the orchestrator's choice of extension date and its per-bill batch loop;
- the list and string logic of the collectors: extension-order filtering and maximum,
  bill-number extraction, order-URL parsing, bill-id normalisation, de-duplication and
  sorting of hearing dockets, and committee contact blocks;
- the output controller's subscription filter;
- the web application's role predicates, notification snippet, post publish/edit
  timestamps, report form, splinter item caps and like toggling.

Conventions:

- Dates are Python `date.toordinal()` day numbers.
- The cache is a value (`ParserCache.Cache`) of nested maps over a small JSON type, so
  legacy bare-string entries, structured entries and missing keys can all be written
  down.
- Everything that would touch the outside world is a parameter: the clock,
  `date.today()`, scraped pages, parser modules, the LLM reply, the person's yes/no
  answer, `fromisoformat` and `isoformat`.
- Operations are pure functions, with two exceptions written as methods with loops:
  the `seen`-set de-duplication (`Hearings.Dedupe`), proved equal to a reference
  definition, and the handler dispatch (`Output.Emit`).

Modules follow the source files:

| module | models |
|---|---|
| `Deadlines` | `compute_deadlines`, `compute_notice_status` |
| `Compliance` | `classify`, `_get_missing_requirements` |
| `ParserCache` | the `Cache` class |
| `Llm` | `_truncate_content`, decision parsing, `make_decision`, `_log_audit_entry` |
| `Confirmation` | `ask_llm_decision`, `ask_yes_no_with_llm_fallback` |
| `Resolver` | `components/pipeline.py` |
| `ExtensionOrders` | `collectors/extension_orders.py` |
| `CachedExtensions` | the extension queries of `components/utils.py` |
| `Runner` | `run_basic_compliance`, `_format_time_remaining` |
| `Hearings` | `collectors/bills_from_hearing.py` |
| `Contacts` | `collectors/committee_contact_info.py` |
| `Output` | the subscription filter of `components/output.py` |
| `Accounts` | `app/models.py` |
| `Blog` | `app/routes/blog.py` |

Shared libraries:

- `Text` holds Python's string built-ins as used by the source.
- `Sorting` holds Python's stable `sorted` over tuple keys.
- `Models` holds the record types of `components/models.py`.

Points where the code's behaviour is easy to misread, and which the model follows:

- **Exceptions escape.** In both resolvers' main loops, only a module that fails to
  import is skipped (components/pipeline.py:50-57 and 178-183). An exception from
  `discover` or `parse` propagates out of the resolver, and so does one from a review
  whose LLM prompt does not format (components/llm.py:122-126). The votes fast path is wrapped
  in `try`, but the summary fast path is not. The model therefore has
  `Resolver.Crash` results and `Runner.RunFailure` batch failures.
- **Two fallback flags.** An extension order carries two flags, as the comments at
  components/models.py:104-105 document:
  - `is_date_fallback` means no date was found, and the placeholder 1900-01-01 was
    used;
  - `is_fallback` means the bill id came from the order URL.

  The model keeps both.
- **The substitute extension.** The comments at components/runner.py:160 and 177 and
  components/utils.py:236 speak of 30 days beyond the 60-day deadline. The code
  computes hearing + 90 days, and the model uses 90.

## Model

| member | source | states |
|---|---|---|
| Deadlines.ComputeDeadlines | components/utils.py:228-240 | d60 and d90 are always hearing + 60 and + 90. Without an extension the effective deadline is d60. With one it lies in [d60, d90]: an extension inside the window is used unchanged, and one outside is pulled to the nearer bound. |
| Deadlines.ExtensionMonotone | components/utils.py:234-240 | A later extension never gives an earlier effective deadline. |
| Deadlines.EffectiveIsFixedPoint | components/utils.py:234-240 | Passing the effective deadline back in as the extension gives the same three dates: the clamp is idempotent. |
| Deadlines.ComputeNoticeStatus | components/compliance.py:178-200 | The status is MISSING, with no gap, exactly when either date is absent. Otherwise the gap is scheduled − announced; the notice is in range iff gap ≥ minimum and out of range iff gap < minimum. |
| Deadlines.EarlierAnnouncementNeverWorse | components/compliance.py:194-200 | Announcing the same hearing earlier never turns adequate notice into inadequate notice. |
| Compliance.MissingFactors | components/compliance.py:203-214 | Each requirement's phrase appears iff that requirement is not met. There are exactly 3 − (number met) phrases, in the fixed order reported, votes, summaries. |
| Compliance.MissingRequirements | components/compliance.py:203-214 | The joined list is empty iff all three requirements are met. |
| Compliance.Classify | components/compliance.py:40-175 | The bill id, committee, hearing date, evidence and status are copied, and the reason is never empty. The decision table: (1) too-short notice gives NON_COMPLIANT with "Insufficient notice: …". (2) Missing notice gives UNKNOWN iff there is no evidence, else NON_COMPLIANT. (3) Adequate notice, Senate bill: COMPLIANT with both documents, INCOMPLETE with one, NON_COMPLIANT with none. (4) Adequate notice, other bill: UNKNOWN up to the deadline, then 3 / 2 / ≤1 factors give COMPLIANT / INCOMPLETE / NON_COMPLIANT. Every adequate-notice reason ends with "adequate notice (N days)". |
| Compliance.VerdictHead | components/compliance.py:109-164 | The state chosen under adequate notice is the reference decision `InRangeState` of the Senate flag, the deadline test and the three factors. |
| Compliance.JudgeWithNotice | components/compliance.py:109-164 | Under adequate notice the state agrees with `InRangeState`, and the reason is non-empty and ends with the notice tail for the gap. |
| Compliance.ClassifyInRange | components/compliance.py:107-175 | Under adequate notice, classify's state is exactly the reference decision `InRangeState`. |
| Compliance.InRangeStateMonotone | components/compliance.py:109-164 | More factors present never lowers a decided verdict: non-compliant < incomplete < compliant. |
| Compliance.CompliantNeedsEvidence | components/compliance.py:40-175 | A COMPLIANT verdict implies adequate notice, summaries and votes. For a non-Senate bill it also implies a report and a date past the effective deadline. |
| Compliance.MoreEvidenceNeverWorse | components/compliance.py:107-164 | Under adequate notice, adding evidence (summary, votes, reported out) never makes a decided verdict worse. |
| Compliance.MissingNoticeWithEvidenceIsNonCompliant | components/compliance.py:79-105 | Without an announcement, any evidence gives NON_COMPLIANT with "No hearing announcement found", and no evidence gives UNKNOWN. |
| Compliance.SenateIgnoresDeadline | components/compliance.py:109-130 | A Senate bill's verdict does not depend on today, the deadline or reported_out. |
| Compliance.InadequateNoticeIgnoresDeadline | components/compliance.py:64-105 | Without adequate notice, neither the deadline nor the current date affects the result. |
| Compliance.InsufficientReasonQuotesNumbers | components/compliance.py:74-75 | The insufficient-notice reason contains both the gap and the minimum, rendered as numbers. |
| Compliance.ReasonNamesMissingRequirements | components/compliance.py:150-164 | After the deadline, a non-Senate bill missing any requirement has a reason that contains the list of missing requirements. |
| Compliance.ClassifyReason | components/compliance.py:107-175 | Under adequate notice, classify's reason is the verdict's words followed by the notice tail. |
| Compliance.VerdictHeadNamesFactors | components/compliance.py:150-164 | The verdict words after the deadline start with the factor lead and then list the missing requirements. |
| ParserCache.SetEntry | components/utils.py:75-78 | Writing a key in a bill's slot (created when absent) changes that key and nothing else. |
| ParserCache.DeleteEntry | components/utils.py:131-136 | Deleting a key removes it and changes nothing else. |
| ParserCache.Touch | components/utils.py:75-78 | `setdefault` creates the bill's slot. |
| ParserCache.TouchInvisible | components/utils.py:75-78 | The empty slot a read creates is invisible to every later read. |
| ParserCache.SetParser | components/utils.py:61-73 | The structured entry is stored under (bill, kind); every other bill and kind is unchanged. |
| ParserCache.GetAfterSetParser | components/utils.py:41-73 | After `set_parser(b, k, m, confirmed=c)`, `get_parser(b, k) = m` and `is_confirmed(b, k) = c`; every other (bill, kind) reads as before. |
| ParserCache.LegacyAndMissingEntries | components/utils.py:41-59 | A missing entry gives no parser and is unconfirmed. A legacy bare string is its own module and is never confirmed. Only a structured entry can be confirmed. |
| ParserCache.GetParser | components/utils.py:41-50 | Definition of `get_parser` (a bare string, or the "module" field of a structured entry). It is read back by `ParserCache.GetAfterSetParser` and `ParserCache.LegacyAndMissingEntries`. |
| ParserCache.IsConfirmed | components/utils.py:52-59 | Definition of `is_confirmed` (a truthy "confirmed" field). It is read back by the same two lemmas. |
| ParserCache.GetTitle | components/utils.py:181-188 | Definition of `get_title`. `ParserCache.TitleRoundTrip` states that it reads back. |
| ParserCache.GetExtension | components/utils.py:80-85 | Definition of `get_extension`. `ParserCache.ExtensionEntries` states that it reads back. |
| ParserCache.GetHearingAnnouncement | components/utils.py:101-106 | Definition of `get_hearing_announcement`. `ParserCache.AnnouncementRoundTrip` states that it reads back. |
| ParserCache.GetBillUrl | components/utils.py:138-140 | Definition of `get_bill_url`. `ParserCache.AnnouncementRoundTrip` states that it reads back. |
| ParserCache.GetCommitteeContact | components/utils.py:159-161 | Definition of `get_committee_contact`. `ParserCache.ContactRoundTrip` states that it reads back. |
| ParserCache.SetTitle | components/utils.py:190-199 | A structured title entry is written, and nothing else changes. |
| ParserCache.TitleRoundTrip | components/utils.py:181-199 | `set_title` then `get_title` gives the title back. A legacy bare-string title is read as is. Other bills' titles are unchanged. |
| ParserCache.SetExtension | components/utils.py:87-99 | Only the bill's "extensions" entry changes. |
| ParserCache.AddBillWithExtensions | components/utils.py:148-157 | Only the bill's "extensions" entry changes. |
| ParserCache.ExtensionEntries | components/utils.py:80-157 | After `set_extension` the entry holds the given date and URL. After `add_bill_with_extensions` it is a non-empty object with neither key. |
| ParserCache.SetHearingAnnouncement | components/utils.py:108-129 | Only the announcement entry, and the bill URL when one is given, change. |
| ParserCache.ClearHearingAnnouncement | components/utils.py:131-136 | Only the announcement entry changes. |
| ParserCache.SetBillUrl | components/utils.py:142-146 | Only the bill URL changes. |
| ParserCache.AnnouncementRoundTrip | components/utils.py:101-146 | The stored announcement reads back with its two dates. A non-empty URL is recorded, and an absent or empty one leaves the old URL. Clearing removes the announcement and keeps the URL. `set_bill_url` round-trips. |
| ParserCache.SetCommitteeContact | components/utils.py:163-176 | Only that committee's contact changes; bill entries are untouched. |
| ParserCache.ContactRoundTrip | components/utils.py:159-176 | A stored contact keeps every field given, except "updated_at", which is the new timestamp. |
| CachedExtensions.Records | components/utils.py:471-507 | One record per collected order, in order, holding the bill id, the ISO date and the order URL. |
| CachedExtensions.CachedEntry | components/utils.py:476-484 | A cached extension is used only when it is a non-empty object. |
| CachedExtensions.OrdersForBillAsWritten | components/utils.py:471-507 | Without a usable cached entry, the result is the records of the collected orders for the bill. Its cache writes are stated by `CachedExtensions.CacheAfterQuery`. |
| CachedExtensions.CacheAfterQuery | components/utils.py:476-488 | No cache stays no cache. A usable cached entry leaves the cache unchanged. Otherwise the scrape writes into the given cache: only extension entries change, and afterwards every bill with a collected order has a usable cached entry. |
| CachedExtensions.SecondQueryRaises | components/utils.py:476-488 | For a bill whose last collected order came only through its URL, the first `get_latest_extension_date` scrapes and succeeds, but leaves the URL-only marker, so a second call raises `KeyError("extension_date")`, whatever a later scrape would collect. |
| CachedExtensions.CachedOrdersForBill | components/utils.py:471-507 | A usable cached entry gives exactly one record for the bill. Otherwise the result is the collected orders' records. Wherever the as-written query succeeds, this corrected query agrees with it. |
| CachedExtensions.LatestReadable | components/utils.py:514-528 | The query fails iff some record holds a non-text date; `TypeError` is not caught. It gives None iff no record's date parses. Otherwise it gives the maximum of the parseable dates, skipping the rest. |
| CachedExtensions.LatestExtensionDateAsWritten | components/utils.py:510-528 | A failure of the order query propagates out of `get_latest_extension_date`. |
| CachedExtensions.MarkerMakesQueryRaise | components/utils.py:478-484 | A bill carrying the URL-only marker makes the query raise `KeyError`. |
| CachedExtensions.LatestExtensionDateQuery | components/utils.py:510-528 | The corrected query agrees with the as-written one wherever that succeeds. It fails only on a non-text date. |
| CachedExtensions.MarkerHasNoDate | components/utils.py:478-484 | Under the corrected reading, the marker means no readable extension date. |
| CachedExtensions.ReadableRecordsMax | components/utils.py:514-528 | When ISO dates read back, the loop over a bill's collected orders finds exactly their maximum date. |
| CachedExtensions.RecordsReadBack | components/utils.py:494-506 | Each record's date reads back to its order's date, and none is non-text. |
| CachedExtensions.QueryAgreesWithCollected | components/utils.py:510-528 | Without a cached entry, the cached query returns the collector's own `get_latest_extension_date`. |
| Llm.FirstQualifying | components/llm.py:247-253 | Finds the first boilerplate indicator occurring strictly after position 0 and before the middle; no earlier indicator qualifies. |
| Llm.CutBoilerplate | components/llm.py:233-253 | The cut text is whitespace-normalised and a prefix of the input. It is the input unchanged when no indicator qualifies, and shorter than half of it otherwise. |
| Llm.SentenceCut | components/llm.py:255-268 | It applies only when ". " occurs. Its result is a prefix, possibly followed by ".", and at most 200 characters long. |
| Llm.WordCut | components/llm.py:270-275 | It applies only with more than 15 words. Its result is a prefix of the text plus "...", at most 203 characters long. |
| Llm.CharCut | components/llm.py:277-281 | Text of at most 200 characters is kept. Longer text becomes its first 200 characters plus "...". |
| Llm.TruncateContent | components/llm.py:213-282 | Blank input is returned unchanged. Any other input gives at most 203 characters, and the result is a prefix of the whitespace-collapsed text, possibly followed by "." or "...". |
| Llm.TruncationWidens | components/llm.py:252-281 | A truncation of the boilerplate-cut text is a truncation of the whole text. |
| Llm.ShortTextOnlyCollapsed | components/llm.py:229-281 | Short text without boilerplate, sentence break or many words comes back with only its whitespace collapsed. |
| Llm.TwoSentencesKept | components/llm.py:256-268 | When the first two sentences, joined and ending in '.', fit in 200 characters, that text is returned. |
| Llm.ParseDecision | components/llm.py:151-179 | A final line that is exactly yes, no or unsure (trimmed, case-insensitive) decides. Otherwise the fallback over the whole lower-cased reply decides. |
| Llm.FinalLine | components/llm.py:153-154 | Definition: the stripped, lower-cased last line of the stripped reply. `Llm.ParseDecision` states how it decides. |
| Llm.FallbackYesIff | components/llm.py:165-173 | The fallback says yes iff some "yes" has no "no" and no "unsure" starting at or after it. |
| Llm.FallbackNoIff | components/llm.py:165-179 | The fallback says no iff there is a "no" and no "yes" anywhere. |
| Llm.Audit | components/llm.py:284-316 | One entry when auditing is on, none otherwise. |
| Llm.MakeDecision | components/llm.py:78-211 | It raises iff the LLM is enabled and available and the configured prompt does not format; then nothing is logged. Otherwise there is a decision iff the LLM is enabled, available and answers with HTTP 200, and the decision is the parse of the stripped reply. Every path that returns logs exactly one audit entry when auditing is on. The entry carries the content, its truncation, the decision and the path's tag (disabled, unavailable, http_error_N, exception_…). |
| Confirmation.AskLlmDecision | components/utils.py:270-297 | Without LLM or audit enabled, or without a parser, there is no decision and no log. It raises iff the parser exists and `make_decision` raises on the prompt. A decision implies the LLM is enabled and available. A return writes one audit entry iff the parser exists and auditing is on. |
| Confirmation.AskYesNoWithLlmFallback | components/utils.py:300-337 | Without a configuration and a bill id, the person's answer is returned and nothing is logged. It raises exactly when the LLM is asked and `ask_llm_decision` raises. At most one audit entry is written. |
| Confirmation.UnformattablePromptEscapes | components/llm.py:121-126 | When the LLM would be asked (configuration, bill id, parser, enabled, available) and the prompt does not format, the confirmation raises instead of answering. |
| Confirmation.LlmAnswerDecides | components/utils.py:323-337 | When the LLM question returns, LLM "yes" gives True and "no" gives False. "Unsure" or no answer gives the person's answer. |
| Confirmation.DisabledLlmDefersToHuman | components/utils.py:288-337 | With the LLM switched off, even with audit on, the person always decides. |
| Resolver.CostKeyOrder | components/pipeline.py:18 | Ordering by the sort key is ordering by cost, with 999 for a missing cost. |
| Resolver.LoadParsers | components/pipeline.py:14-18 | The catalogue is permuted into ascending cost, a missing cost counting as 999. It is stable: entries with equal keys keep their order. Both resolvers use it (lines 42 and 169). |
| Resolver.Without | components/pipeline.py:46 | Exactly the entries whose module differs from the cached one. |
| Resolver.WithoutKeepsOrder | components/pipeline.py:43-47 | Dropping the cached module's entries keeps cost order. |
| Resolver.BuildSequence | components/pipeline.py:169-174 | With a cached module: it comes first with cost 0, followed by exactly the other catalogue entries in cost order. Without one: the sorted catalogue. The summary resolver builds it identically at lines 42-47. |
| Resolver.CachedModuleOnce | components/pipeline.py:170-174 | The cached module appears exactly once, at the head. |
| Resolver.InferLocation | components/pipeline.py:118-128 | The priority is embedded > bill_pdf > hearing > committee, and "unknown" iff none of these occurs. |
| Resolver.LocationFor | components/pipeline.py:231-233 | For a summary: "hearing_pdf" iff the module name contains "hearing", else "bill_tab". For votes: the parsed location when non-empty, else the inferred one. The summary rule is at lines 96-98. |
| Resolver.Walk | components/pipeline.py:176-242 | Nothing landing returns the absent result with the cache untouched. A landing names a module from the sequence that exists, sets needs_review iff review is off, and writes the cache with confirmed = review. A crash names a module in the sequence, including one whose review raised. The summary loop at lines 48-109 is the same walk. |
| Resolver.Resolve | components/pipeline.py:144-242 | When nothing lands, the result is absent and the cache is unchanged. Any result that leaves the cache unchanged and is present names the module it came from. Crashes name a module of the sequence. |
| Resolver.ResolveSummary | components/pipeline.py:21-109 | The summary resolver with its fast path guarded as the votes one is. It is `Resolver.Resolve` for summaries, and it agrees with the as-written resolver wherever that succeeds (see `Resolver.ResolveSummaryAsWritten`). |
| Resolver.ResolveVotes | components/pipeline.py:131-242 | `resolve_votes_for_bill`, which is `Resolver.Resolve` for votes. |
| Resolver.ConfirmationContent | components/pipeline.py:62-84 | A preview over 140 characters is shown alone. A shorter one, or the default prompt when it is empty, starts the content, followed by the source URL. The content is never empty. |
| Resolver.Accepts | components/pipeline.py:61-84 | The reviewed answer from `Confirmation.AskYesNoWithLlmFallback` on that content, or the exception it raises. `Confirmation.LlmAnswerDecides` states how it decides. |
| Resolver.ResolveSummaryAsWritten | components/pipeline.py:25-40 | A confirmed cached summary module that cannot be imported makes the resolver raise. Wherever it succeeds, it agrees with the guarded `Resolver.ResolveSummary`. |
| Resolver.ConfirmedFastPath | components/pipeline.py:147-162 | A confirmed module that still discovers and parses lands with needs_review false and the cache unchanged. The result depends on no other module. The summary fast path is at lines 27-39. |
| Resolver.StaleCacheFallsThrough | components/pipeline.py:163-167 | A confirmed module that is gone, raises or finds nothing sends the resolver through the full sequence; it does not return absent. |
| Resolver.UnformattablePromptStopsWalk | components/pipeline.py:61-84 | In review mode, when the LLM is consulted and its prompt does not format, the first module that finds a candidate stops the resolver with that failure. |
| Resolver.RejectedCandidateSkipped | components/pipeline.py:215-216 | In review mode a rejected candidate moves on to the next parser with the cache untouched. |
| Resolver.FirstDecisive | components/pipeline.py:48-57 | The first module that imports and whose discovery is not empty. |
| Resolver.ReviewOffTakesFirst | components/pipeline.py:212-227 | With review off, the first such module's candidate is auto-accepted: needs_review is true, and the cache is written with confirmed false. Its exception escapes. With no such module, nothing lands. |
| Resolver.LandingIsRecorded | components/pipeline.py:224-227 | What lands is cached as the parser for this bill and kind, confirmed exactly when review mode is on. |
| Resolver.ResolveFrame | components/pipeline.py:224-227 | No cache entry except (bill, kind) changes. |
| Resolver.SummaryFastPathCrashes | components/pipeline.py:28-30 | A confirmed summary module that no longer exists crashes the as-written resolver. The guarded one returns absent. |
| Resolver.SummaryVersionsAgree | components/pipeline.py:25-109 | When the confirmed summary module imports and neither of its calls raises, the two versions agree. |
| ExtensionOrders.OrdersForBill | collectors/extension_orders.py:353-357 | Exactly the orders with that bill id. |
| ExtensionOrders.OrdersForBillAppend | collectors/extension_orders.py:353-357 | Filtering distributes over concatenation, so collection order is kept. |
| ExtensionOrders.MaxDate | collectors/extension_orders.py:367 | The returned date bounds every order and is one of them. |
| ExtensionOrders.LatestExtensionDate | collectors/extension_orders.py:360-367 | None iff the bill has no orders. Otherwise the maximum of its orders' dates. |
| ExtensionOrders.ChamberPrefix | collectors/extension_orders.py:122-132 | house, senate and joint (any case) map to H, S and J. |
| ExtensionOrders.SeparatorAt | collectors/extension_orders.py:136 | The length of a `,\s*` or `\s+and\s+` separator match. |
| ExtensionOrders.SplitListFrom | collectors/extension_orders.py:136 | `re.split` on the separators. |
| ExtensionOrders.DigitPieces | collectors/extension_orders.py:137-139 | The stripped all-digit pieces, in order. |
| ExtensionOrders.DocNumbers | collectors/extension_orders.py:134-142 | Every number kept is all digits. |
| ExtensionOrders.Prefixed | collectors/extension_orders.py:144-147 | Each number prefixed with the chamber letter gives a well-formed id. |
| ExtensionOrders.MatchIds | collectors/extension_orders.py:121-147 | Every id from one match is H, S or J followed by digits. |
| ExtensionOrders.ExtractBillNumbers | collectors/extension_orders.py:99-148 | Definition over the supplied matches: each match's ids in match order. Its properties are `ExtractedIdsWellFormed` and `ExtractBillNumbersAppend`. |
| ExtensionOrders.ExtractedIdsWellFormed | collectors/extension_orders.py:99-148 | Every id extracted from a text is a chamber letter followed by a non-empty digit string. |
| ExtensionOrders.ExtractBillNumbersAppend | collectors/extension_orders.py:119-147 | Matches contribute their ids in match order. |
| ExtensionOrders.SingleDocumentNumber | collectors/extension_orders.py:140-147 | A single digit string in a recognised chamber gives exactly one id. |
| ExtensionOrders.OrderUrlMatchAt | collectors/extension_orders.py:92 | A match yields H/S followed by digits. |
| ExtensionOrders.ExtractBillIdFromOrderUrl | collectors/extension_orders.py:85-96 | Only H/S + digits taken from a `/Bills/<n>/<id>/House/Order/Text` or `…/Senate/Order/Text` path, else None. |
| ExtensionOrders.OrderUrlRoundTrip | collectors/extension_orders.py:85-96 | The order URL for year y, id and chamber reads back to that id. |
| ExtensionOrders.LookupCommittee | collectors/extension_orders.py:71-81 | The id of the first entry with exactly that name. |
| ExtensionOrders.CommitteeCapture | collectors/extension_orders.py:61-69 | The capture is the text after the leftmost case-insensitive "committee on ", up to ',' or a newline. |
| ExtensionOrders.AsWrittenNeverJ33 | collectors/extension_orders.py:62-72 | No text ever maps to J33: its name contains a comma, at which the capture stops. |
| ExtensionOrders.EveryCommitteeRecognised | collectors/extension_orders.py:58-82 | Under the corrected lookup, every known committee named after "Committee on " is recognised, whatever follows. |
| ExtensionOrders.TelecommunicationsOrderMissed | collectors/extension_orders.py:62-72 | An order naming the Telecommunications committee gets J33 under the corrected lookup and never as written. |
| ExtensionOrders.TelecommunicationsCapture | collectors/extension_orders.py:62-72 | As written, "Committee on Telecommunications, Utilities, and Energy…" names no committee: the capture stops at "Telecommunications". |
| ExtensionOrders.TelecommunicationsPageUnknown | collectors/extension_orders.py:169-172 | Every order parsed from a page naming the Telecommunications committee is recorded under "UNKNOWN". |
| ExtensionOrders.CommitteeIdFromTextAsWritten | collectors/extension_orders.py:58-82 | `_extract_committee_from_text` as written. Any id found is one of the table's ids, and without a "committee on" capture there is none. Its consequences are `AsWrittenNeverJ33` and `TelecommunicationsCapture`. |
| ExtensionOrders.CommitteeIdFromText | collectors/extension_orders.py:58-82 | The evidently intended lookup. Any id found is one of the table's ids, and without a "committee on" match there is none. `EveryCommitteeRecognised` states that it finds every known committee. |
| ExtensionOrders.OrderType | collectors/extension_orders.py:174-178 | The order type is named by precedence: "Committee Extension Order", then "Joint Committee", else "Extension Order". |
| ExtensionOrders.OrdersFor | collectors/extension_orders.py:199-212 | One order per id, in order, each with the shared fields. |
| ExtensionOrders.ParseExtensionOrderPage | collectors/extension_orders.py:151-215 | A failed fetch yields none. No ids from either the text or the URL yields none. Text ids give one non-fallback order each, in order; otherwise the URL id gives a single order with is_fallback. Every order has the page's URL, the order type, and the committee from the as-written lookup `CommitteeIdFromTextAsWritten`, or "UNKNOWN" when it finds none. A missing date gives the 1900-01-01 placeholder with is_date_fallback. |
| ExtensionOrders.CacheCollectedOrders | collectors/extension_orders.py:326-343 | Only "extensions" entries change. |
| ExtensionOrders.CacheCollectedAppend | collectors/extension_orders.py:312-343 | Caching distributes over concatenation of collected orders. |
| ExtensionOrders.CacheCollectedOtherBills | collectors/extension_orders.py:326-343 | Caching orders for other bills leaves a bill's cached extension as it was. |
| ExtensionOrders.CollectedBillsCached | collectors/extension_orders.py:326-343 | After caching, every bill with a collected order has a non-empty cached extension: a dated entry or the URL-only marker. |
| ExtensionOrders.FallbackOrderLeavesMarker | collectors/extension_orders.py:338-343 | When a bill's last collected order is a URL fallback, its cached extension has neither date nor URL. |
| Runner.GroupByBill | components/runner.py:134-138 | Every list in the lookup is non-empty. |
| Runner.GroupByBillLists | components/runner.py:134-138 | The lookup lists exactly the bills with an order, each with all its orders in collection order. |
| Runner.LatestIndex | components/runner.py:156-158 | The chosen order has the maximum date, and it is the first such order, as `max` picks it. |
| Runner.GrantedUntil | components/runner.py:155-165 | The latest order's date, or hearing + 90 when that order's date is a fallback. |
| Runner.ExtensionUntil | components/runner.py:153-185 | A bill with orders gets the granted date. With checking on, no orders gives None. With checking off, the cached date is read: 1900-01-01 means hearing + 90, an unparseable or missing date gives None, and a non-text date fails the batch. |
| Runner.DateFallbackGivesNinetyDays | components/runner.py:159-161 | When the latest order's date is a fallback, the extension is hearing + 90. |
| Runner.CheckingOnIgnoresCache | components/runner.py:153-166 | With checking on, the cache is never consulted for the extension. |
| Runner.CachedExtensionReadBack | components/runner.py:166-183 | With checking off, a cached ISO date reads back to that date, or to hearing + 90 for the placeholder. |
| Runner.FallbackMarkerGivesNoDate | components/runner.py:169-185 | With checking off, the URL-only marker gives no extension date. |
| Runner.ShownOrderAsWritten | components/runner.py:217-238 | As written, only the cached read with checking off can fail, and only with a KeyError for this bill. It fails exactly when the cached entry is a non-empty object lacking "extension_url" or "extension_date". |
| Runner.MarkerRaisesKeyError | components/runner.py:228-233 | The marker that `add_bill_with_extensions` writes makes the as-written artifact read raise `KeyError("extension_url")`. |
| Runner.FallbackMarkerStopsBatch | components/runner.py:228-233 | With checking off, once the rows before it have succeeded, a bill whose cached extension is the URL-only marker makes the whole batch as written fail: no result list is produced, whatever rows follow. |
| Runner.ShownOrderFor | components/runner.py:217-238 | With orders, it shows the URL and date of an order with the maximum date. With checking on and no orders, nothing. Wherever the as-written code succeeds, it agrees with it. |
| Runner.FallbackMarkerShowsNothing | components/runner.py:228-236 | The corrected fields never fail, and show nothing for the marker. |
| Runner.FormatTimeRemaining | components/runner.py:26-35 | Below 60: "{s}s". Below 3600: "{m}m {s}s". Otherwise "{h}h {m}m", with integer division and remainder. |
| Runner.BuildStatusRow | collectors/bill_status_basic.py:190-196 | It copies the row's ids and hearing date. Its deadlines are hearing + 60 and hearing + 90, with the effective deadline between them. It carries the page facts and the extension. |
| Runner.LookupFor | components/runner.py:127-140 | Only non-empty lists. |
| Runner.TitleFor | components/runner.py:192-201 | The cached title when present. Otherwise the fetched one, cached when non-empty. |
| Runner.ProcessRow | components/runner.py:149-267 | The loop body as written: the summary comes from the unguarded fast path (`Resolver.ResolveSummaryAsWritten`), and the artifact fields are read with `[]` (`Runner.ShownOrderAsWritten`) from the cache after the resolvers and the title lookup. A produced row keeps the bill id, URL and hearing date. It records the 60-day deadline and an effective deadline in [d60, d90], and its reason is non-empty. |
| Runner.RunEach | components/runner.py:149-267 | One result per row, in order, when every step succeeds. |
| Runner.RunRows | components/runner.py:149-267 | The batch as written: exactly one result row per input row, in input order, each for its own bill. A failing row fails the batch (see `Runner.RowFailureStopsBatch`). |
| Runner.ProcessRowIntended | components/runner.py:149-267 | The loop body as evidently intended: guarded summary fast path, missing cached keys shown as absent. It keeps the same row guarantees, and it can fail only through a resolver or a non-text cached date, never with a KeyError. |
| Runner.IntendedRowAgrees | components/runner.py:149-267 | Wherever the row as written succeeds, the intended row is the same row. |
| Runner.RunRowsIntended | components/runner.py:143-267 | The intended batch: one result row per input row, in order, each for its own bill. |
| Runner.MarkerWritten | components/utils.py:148-157 | The collector's `add_bill_with_extensions` leaves the URL-only marker in the cache. |
| Runner.RowKeepsExtensions | components/runner.py:187-201 | Resolving the summary and votes and looking up the title never change the bill's "extensions" entry, so line 230 reads what the row started with. |
| Runner.MarkerStopsRow | components/runner.py:228-233 | With checking off, a bill holding the marker never yields a row as written: a resolver raises first, or the read of "extension_url" raises `KeyError`. |
| Runner.MarkerKeepsIntendedRow | components/runner.py:228-233 | The intended row never fails on the marker; only a resolver can stop it. |
| Runner.StaleSummaryStopsRow | components/pipeline.py:27-32 | A confirmed summary module that can no longer be imported stops the row as written with that import failure. |
| Runner.RowFailureStopsBatch | components/runner.py:149-190 | Once the rows before it have succeeded, a failing row ends the batch with its own failure, whatever rows follow. |
| Runner.RunEachAppend | components/runner.py:149-267 | A batch over two runs of rows is the first run's results followed by the second's, with the cache threaded through. |
| Runner.RowVerdictIsClassified | components/runner.py:244-267 | Each row's verdict and reason are the classifier's, on the status built for it. |
| Hearings.RemoveDotsAndSpaces | collectors/bills_from_hearing.py:58 | The kept characters are exactly the input's non-dot, non-whitespace characters, in order. |
| Hearings.DropTrailingLetters | collectors/bills_from_hearing.py:59 | Trailing capitals after H/S + digits are cut. |
| Hearings.DropTrailingLettersMatches | collectors/bills_from_hearing.py:59 | For ASCII digits, the cut happens exactly when `[HS](\d+)[A-Z]*$` (H or S, digits, capitals to the end) matches, and keeps the text up to the digits. |
| Hearings.NormalizeBillId | collectors/bills_from_hearing.py:55-60 | The result is upper-case with no dots, whitespace or NBSP. |
| Hearings.NormalizeSpacedLabel | collectors/bills_from_hearing.py:55-60 | A chamber letter, separators, a number, separators and capital letters normalise to the letter and number. |
| Hearings.NormalizeFirstExample | collectors/bills_from_hearing.py:56 | Example only: "H. 73" becomes "H73". |
| Hearings.NormalizeSecondExample | collectors/bills_from_hearing.py:56 | Example only: "S.197 C" becomes "S197". |
| Hearings.DropTrailingLettersIdempotent | collectors/bills_from_hearing.py:59 | Cutting twice changes nothing more. |
| Hearings.NormalizeIdempotent | collectors/bills_from_hearing.py:55-60 | Normalising twice equals normalising once. |
| Hearings.HearingIdOfHref | collectors/bills_from_hearing.py:78-81 | The hearing id is the non-empty digit run ending a detail href. |
| Hearings.HearingHrefRoundTrip | collectors/bills_from_hearing.py:78-88 | The detail href built for an id reads back as that id. |
| Hearings.StatusFlag | collectors/bills_from_hearing.py:92-96 | "Confirmed" beats "Completed" as a whole word in any case; otherwise "". |
| Hearings.HearingOfLink | collectors/bills_from_hearing.py:76-104 | A hearing is produced iff the href names one. It has the committee id, and date.min when the date cannot be read. |
| Hearings.HearingsOfLinks | collectors/bills_from_hearing.py:76-104 | The hearings of the links, in order. |
| Hearings.ListedHearings | collectors/bills_from_hearing.py:63-107 | The listed hearings are a permutation of the linked ones, sorted by (date, id), with a missing date becoming date.min. |
| Hearings.ListCommitteeHearings | collectors/bills_from_hearing.py:63-107 | Definition of `list_committee_hearings`. `Hearings.ListedHearings` states that it is a sorted permutation of the linked hearings. |
| Hearings.RowOfLink | collectors/bills_from_hearing.py:122-137 | Only bill hrefs give a row. The row carries the normalised id and the hearing's fields. |
| Hearings.RowsOfLinks | collectors/bills_from_hearing.py:122-137 | The rows of the bill links, in order, each tied to the hearing. |
| Hearings.FirstOccurrences | collectors/bills_from_hearing.py:139-146 | Reference de-duplication: the rows that are the first of their key. |
| Hearings.FirstOccurrencesDistinct | collectors/bills_from_hearing.py:139-146 | No two kept rows share a (bill_id, hearing_id) key. Every key among the input's rows is kept, and only input rows are kept. |
| Hearings.Dedupe | collectors/bills_from_hearing.py:139-146 | The `seen`-set loop computes exactly the first occurrences, in order. |
| Hearings.BillsOfHearing | collectors/bills_from_hearing.py:110-146 | Every row belongs to the hearing, with its id, date, committee and URL. |
| Hearings.SliceTo | collectors/bills_from_hearing.py:156 | Python's `[:n]`, including a negative n. |
| Hearings.LimitHearings | collectors/bills_from_hearing.py:155-156 | None and 0 keep every hearing. A positive limit keeps the first min(limit, count). The result is always a prefix. |
| Hearings.BillsOfHearings | collectors/bills_from_hearing.py:157-159 | Every row comes from one of the kept hearings. |
| Hearings.CommitteeRows | collectors/bills_from_hearing.py:149-162 | The output is a permutation of the kept hearings' rows, sorted by (hearing_date, hearing_id, bill_id), and every row comes from a kept hearing. |
| Hearings.BillsForCommittee | collectors/bills_from_hearing.py:149-162 | Definition of `get_bills_for_committee`. `Hearings.CommitteeRows` states that it is a sorted permutation of the kept hearings' rows. |
| Contacts.ValidateAcceptsLegislatureAddress | collectors/committee_contact_info.py:17-31 | Every address ending in a legislature domain is accepted. |
| Contacts.ValidateIgnoresCase | collectors/committee_contact_info.py:22 | Addresses with the same lower-case form are judged alike. |
| Contacts.ValidateUpperCase | collectors/committee_contact_info.py:22 | Upper-casing an address does not change the verdict. |
| Contacts.ValidateIgnoresPadding | collectors/committee_contact_info.py:22 | Whitespace around the address does not change the verdict. |
| Contacts.ValidateEmailDomain | collectors/committee_contact_info.py:17-31 | Definition of `_validate_email_domain`; its properties are the four `Contacts.Validate…` lemmas above. |
| Contacts.RoomAt | collectors/committee_contact_info.py:13 | A room match ends past "Room". |
| Contacts.PhoneAt | collectors/committee_contact_info.py:12 | A phone match is non-empty. |
| Contacts.AddressAt | collectors/committee_contact_info.py:149-151 | A full-address match is non-empty. |
| Contacts.ExtractContactInfo | collectors/committee_contact_info.py:138-157 | The room and phone are the leftmost matches. The address is None whenever "Boston" is absent. With Boston, it is the full-address match when there is one, else "24 Beacon St. {room} Boston, MA 02133" when a room is found. |
| Contacts.RoomShape | collectors/committee_contact_info.py:13 | A room starts with "Room" in any case, then whitespace and room characters. |
| Contacts.RoomRoundTrip | collectors/committee_contact_info.py:141-142 | A block opening with "Room " and a number yields that room. |
| Contacts.FallbackAddressExample | collectors/committee_contact_info.py:148-155 | Example only: A Boston block with a room but no full address line gets the fallback address. |
| Output.MatchesPatternIsGlob | components/output.py:98-106 | "*" matches anything, "p*" is a prefix test, "*s" a suffix test, and anything else equality. This is the one-star glob reading. |
| Output.MatchesPattern | components/output.py:98-106 | Definition of `_matches_pattern`. `Output.MatchesPatternIsGlob` states what it matches. |
| Output.MatchesSubscriber | components/output.py:74-96 | Definition of `_matches_subscriber`. `Output.MatchesSubscriberIsConjunction` states what it accepts. |
| Output.BothEndsStarIsNotSubstring | components/output.py:102-104 | Example only: "*abc*" is a prefix test on "*abc", not a substring test. |
| Output.MatchesSubscriberIsConjunction | components/output.py:74-96 | A subscriber matches iff every key it has accepts the event, and absent keys impose nothing. The level check is membership of the level's value. |
| Output.EmptySubscriberAcceptsAll | components/output.py:74-96 | A subscriber with no keys accepts everything. |
| Output.AnyMatches | components/output.py:68-72 | True iff some subscriber matches. |
| Output.ShouldOutput | components/output.py:63-72 | True with no subscribers; otherwise true iff some subscriber matches. |
| Output.MoreSubscribersShowMore | components/output.py:63-72 | Adding a subscriber to a non-empty list never hides an event. |
| Output.Emit | components/output.py:108-123 | Every handler is called, in order, iff the filter passes; otherwise none is called. |
| Accounts.AuthorityMeaning | app/models.py:71-81 | Authority means admin or moderator, and every authority may contribute. |
| Accounts.ContributorRoles | app/models.py:80-81 | The contributors are exactly contributor, admin and moderator. |
| Accounts.BannedHasNoRights | app/models.py:77-84 | "banned" and "user" are neither authority nor contributor. |
| Accounts.RoleIcon | app/models.py:41-53 | Any other role gets the default icon. |
| Accounts.RoleIconsDistinct | app/models.py:41-53 | The four named roles have four distinct icons, none of them the default. |
| Accounts.Shorten | app/models.py:306 | Short text is kept. Longer text becomes its first 100 characters plus "...", 103 in all. |
| Accounts.ShortenBounds | app/models.py:306 | At most 103 characters, and idempotent. |
| Accounts.Snippet | app/models.py:299-306 | Empty for other target types or a missing target; at most 103 characters. |
| Accounts.SnippetOfPost | app/models.py:302-306 | An existing post's snippet is its content, cut at 100 with "..." when longer. |
| Blog.CreatePost | app/routes/blog.py:503-504 | A direct post is published now and a draft is not. No update time. Every visible post is dated. Splinters are created the same way at lines 988-989. |
| Blog.EditPost | app/routes/blog.py:559-571 | The draft flag follows the form. A visible post stays dated, and an existing publication time is kept. |
| Blog.EditPostTransitions | app/routes/blog.py:559-571 | On first publication, published_at is set if absent, or updated_at if present. Visible-to-visible sets updated_at. Saving a draft touches neither. |
| Blog.PublishThenEdit | app/routes/blog.py:559-571 | A published draft keeps its publication time, and a later edit becomes its update time. |
| Blog.EditSplinterAsWritten | app/routes/blog.py:1084-1092 | published_at is never touched. updated_at is set exactly when not publishing now. |
| Blog.SplinterPublishedUndated | app/routes/blog.py:1091-1092 | A splinter saved as a draft and then published by an edit is visible with no publication time. |
| Blog.EditSplinter | app/routes/blog.py:1084-1092 | The corrected edit keeps visible splinters dated. It changes published_at exactly on a first publication of an undated draft, and its updated_at matches the as-written rule. |
| Blog.SplinterPublishesLikePost | app/routes/blog.py:1084-1092 | On first publication of an undated draft, the corrected splinter edit agrees with the post edit. It is compared with the post edit at lines 566-567. |
| Blog.ReportReason | app/routes/blog.py:858 | At most 200 characters, a prefix of the stripped input, and empty iff the stripped input is. |
| Blog.RejectionFlashAsWritten | app/routes/blog.py:860 | The category is not "error". |
| Blog.RejectionFlash | app/routes/blog.py:860 | The intended message, with category "error". |
| Blog.RejectionFlashShowsCategory | app/routes/blog.py:860 | The as-written message differs from the intended one and ends with "error". |
| Blog.SubmitReport | app/routes/blog.py:856-885 | Rejected iff there is no truthy id or the reason is empty; a rejection carries the intended flash, "error" category included (see Findings; the route as written flashes `Blog.RejectionFlashAsWritten`). NotFound iff the comment (when given) or else the post does not exist. A duplicate was already reported. A submission stores the given ids and a reason of 1–200 characters. |
| Blog.Recorded | app/routes/blog.py:876-883 | Only a submission appends a report. |
| Blog.ReportTwiceIsDuplicate | app/routes/blog.py:870-875 | Submitting the same report again is a duplicate. |
| Blog.OrDefault | app/routes/blog.py:1061-1065 | A missing or empty value falls back to the default. |
| Blog.ItemOf | app/routes/blog.py:1061-1065 | The quote is capped at 2000, the label at 32 and the summary at 280 characters. Each field is a prefix of its input, and the label is never empty ("claim" by default). |
| Blog.ItemWithinCapsKept | app/routes/blog.py:1061-1065 | Fields within the caps are stored as submitted. |
| Blog.ItemOfIdempotent | app/routes/blog.py:1061-1065 | Storing a stored item again changes nothing. |
| Blog.ItemsOf | app/routes/blog.py:1058-1067 | One stored item per submitted item, in order. |
| Blog.Toggle | app/routes/blog.py:433-446 | The like flips and other likes are unchanged. A notice is added only when newly liking and asked to notify. |
| Blog.TogglePostLike | app/routes/blog.py:430-447 | A missing post is a 404. The like flips, other likes are unchanged, and "liked your post" goes to the author iff the like is new and the author is someone else. |
| Blog.ToggleCommentLike | app/routes/blog.py:456-477 | The same for comments. A notice is sent only when the comment has an author who is someone else. |
| Blog.TogglePostLikeTwice | app/routes/blog.py:430-447 | Toggling twice restores the likes; at most one notice remains. |
| Blog.ToggleCommentLikeTwice | app/routes/blog.py:456-477 | The same for comments. |
| Sorting.SortByPermutation | collectors/bills_from_hearing.py:161 | `sorted` returns a permutation of its input. The parser catalogue (components/pipeline.py line 18) is sorted the same way. |
| Sorting.SortBySorted | collectors/bills_from_hearing.py:161 | `sorted` orders by key, with Python's tuple comparison. The parser catalogue (components/pipeline.py line 18) is sorted the same way. |
| Sorting.SortByStable | collectors/bills_from_hearing.py:161 | `sorted` is stable: elements with equal keys keep their relative order. The parser catalogue (components/pipeline.py line 18) is sorted the same way. |
| Sorting.KeyLtTransitive | collectors/bills_from_hearing.py:106 | Tuple order is transitive. |
| Sorting.KeyLtTotal | collectors/bills_from_hearing.py:106 | Tuple order is total. |
| Text.Words | components/llm.py:233 | `str.split()` gives non-empty words without whitespace. |
| Text.CollapseNormalized | components/llm.py:233 | `' '.join(s.split())` is single-spaced with no edge spaces. |
| Text.CollapseOfNormalized | components/llm.py:233 | Collapsing is the identity on normalised text. |
| Text.SplitOnJoin | components/llm.py:256-260 | Joining the pieces of a split gives the text back. |
| Text.SplitOnCount | components/llm.py:256-257 | A split yields more than one piece iff the separator occurs. |
| Text.RFind | components/llm.py:167-169 | The last occurrence, or -1. |
| Text.Take | app/routes/blog.py:858 | `s[:n]`: at most n characters, and a prefix. |
| Text.ParseNatToString | components/runner.py:29 | A rendered number reads back to itself. |

## Left out

- Scraping and the network: page fetches, BeautifulSoup, `requests`, and the HTTP
  request of `make_decision`. Fetched pages, link lists, event dates and LLM replies
  are parameters.
- `_extract_extension_date`, `_parse_event_date`, `strptime`, `isoformat` and
  `fromisoformat`: dates are day numbers, and parsing is an oracle parameter.
- The clock: `timestamp()`, `datetime.utcnow` and `date.today()` are parameters.
  The cache's "updated_at" strings are an opaque `now`.
- Cache persistence: `save`, `__init__` loading and `search_for_keyword`. The cache
  is an in-memory value.
- `importlib` loading: the parser modules are an explicit registry map.
- Interactive dialogs and their previews: `ask_yes_no`,
  `ask_yes_no_with_preview`, tkinter. The person's answer is a parameter.
  `ask_yes_no_with_preview_and_llm_fallback` routes like
  `ask_yes_no_with_llm_fallback` and is modelled by the same function. The
  140-character choice between the two dialogs is not modelled, since both route the
  same way.
- `get_extension_order_url` (components/utils.py:531-551): a reporting helper that
  reads the same records as `get_latest_extension_date`. It is not modelled.
- Runner.FormatTimeRemaining: takes whole non-negative seconds. The ETA the source passes is a float, and `int()` truncation of a fractional or negative value is not modelled.
- ExtensionOrders.ExtractBillNumbers: the matches of the six `re.finditer` scans (extension_orders.py:107-119) are a parameter (`OrderPage.docMatches`), not computed from the page text. The source scans pattern by pattern, and overlapping patterns can match the same number twice (for example "current House document numbered 357" gives H357 twice, and so two identical orders). That order and those duplicates are the caller's to supply, and the model does not derive them.
- Resolver.Walk and Resolver.Accepts: the LLM audit entries that `ask_yes_no_with_llm_fallback` writes while a candidate is reviewed are dropped. `Confirmation.AskYesNoWithLlmFallback` states how many entries one confirmation logs, but the resolver's result does not carry the audit log.
- Hearings.HearingIdOfHref: a Python `$` also matches just before a final newline, so an href ending in digits and "\n" yields an id in the source and none in the model. Its `(\d+)` is also read with ASCII digits, so an href ending in other Unicode decimal digits yields an id in the source and none in the model.
- Contacts.RoomAt and Hearings.StatusFlag: `\b` is read on ASCII word characters. Python's Unicode `\b` also treats non-ASCII letters and digits as word characters, and that is not modelled: for "ÜConfirmed" the source's `\bConfirmed\b` finds no boundary, while `Hearings.StatusFlag` reports "Confirmed".
- The batch as written (`Runner.RunRows`) is what the model promises for the runner. Its corrected counterpart `Runner.RunRowsIntended` is a separate function, not the source's behaviour.
- Printing, the progress bar and the ETA (`_update_progress`), HTML report writing
  and the JSON artifact file.
- The output controller's `_load_handlers`, its handler classes, and its convenience
  emitters (`app_start`, `bill_status`, …): each only builds an event for `_emit`.
- Subscriber patterns are modelled as strings, level entries as a list or a string.
  Other JSON types in subscriber configs are not modelled.
- `_get_legislator_email`, `get_committee_contact` and chair scraping. Only
  `_validate_email_domain` and the address rule of `extract_contact_info` are
  modelled.
- Letter case is modelled on ASCII letters only (`Text.Lower`, `Text.Upper`).
  Python's full Unicode case mapping is not. `str.isdigit` is modelled on ASCII
  digits.
- Llm.MakeDecision: whether the configured prompt formats is a parameter (`LlmConfig.promptFormats`). Python's `str.format` field syntax is not modelled.
- Hearings.NormalizeBillId: regex `\d` is read as ASCII 0-9, while Python 3 matches every Unicode decimal digit. So "H٧٣C" stays "H٧٣C" in the model, while bills_from_hearing.py:59 gives "H٧٣".
- Hearings.DropTrailingLetters: regex `\d` is read as ASCII 0-9 (see Hearings.NormalizeBillId).
- Hearings.DropTrailingLettersMatches: the match it characterises reads `\d` as ASCII 0-9, so it holds for ASCII digits only.
- Hearings.RowOfLink: the bill-href test `/Bills/\d+/(H|S)\d+` reads `\d` as ASCII 0-9.
- ExtensionOrders.OrderUrlMatchAt: the `\d+` of extension_orders.py:92 is read as ASCII 0-9.
- ExtensionOrders.ExtractBillIdFromOrderUrl: with non-ASCII decimal digits in the path, the source returns an id and the model returns None.
- Contacts.PhoneAt: `\(\d{3}\)\s*\d{3}-\d{4}` is read with ASCII digits.
- Contacts.AddressAt: the `\d{5}` ZIP code of committee_contact_info.py:150 is read with ASCII digits.
- JSON numbers are integers. Floats in the cache are not modelled.
- The web layer beyond the listed rules:
  - permission checks and 403s, form validation, slugs, tags;
  - subscriber notifications on publish;
  - the GET branch of the report route;
  - the non-capped splinter-item fields `quote_html`, `selector_json` and `body`;
  - the like routes' redirects and rate limits;
  - the database session.
- The Oxford-comma list "2065, 2080, and 2090" in extension orders: the split yields
  the piece "and 2090", which the digit filter drops. The model reproduces this,
  since `SplitListFrom` implements the regex exactly. It is not claimed as a finding,
  because the intent is not stated.

## Findings

| source | as written | input that shows it | evidently intended | confidence | as-written member | corrected member |
|---|---|---|---|---|---|---|
| app/routes/blog.py:1091-1092 | `edit_splinter` sets only `updated_at`, and only when not publishing now. A draft splinter published by an edit keeps `published_at = None`. | A splinter created as a draft, then edited with save_draft off. | As in `edit_post` (lines 566-567) and the migration that backfills `published_at`: set the publication time on first publication. | not executed | Blog.EditSplinterAsWritten, Blog.SplinterPublishedUndated | Blog.EditSplinter, Blog.SplinterPublishesLikePost |
| components/runner.py:228-233 | With extension checking off, the cached entry's `["extension_url"]` and `["extension_date"]` are read with `[]`. | A bill whose collected order came only through its URL: `add_bill_with_extensions` leaves `{"is_fallback": true, "updated_at": …}` with neither date nor URL key, so `KeyError` stops the batch. | Read missing keys as absent, as the date lookup at lines 169-185 does. | not executed | Runner.ShownOrderAsWritten, Runner.FallbackMarkerStopsBatch | Runner.ShownOrderFor, Runner.RunRowsIntended |
| components/pipeline.py:27-40 | The summary fast path imports and calls the confirmed module outside any `try`. | A cache entry confirming summary module "gone" that no longer imports: the resolver raises, while the votes resolver (lines 147-167) falls through. | Guard it as the votes fast path is guarded, falling through to the full sequence. | not executed | Resolver.ResolveSummaryAsWritten, Runner.StaleSummaryStopsRow | Resolver.ResolveSummary, Runner.ProcessRowIntended |
| collectors/extension_orders.py:62-81 | The committee name is captured up to the first comma and looked up exactly. | "Committee on Telecommunications, Utilities, and Energy": the capture is "Telecommunications", so J33 is never found. | Recognise every mapped committee named in the text. | not executed | ExtensionOrders.CommitteeIdFromTextAsWritten, ExtensionOrders.TelecommunicationsPageUnknown | ExtensionOrders.CommitteeIdFromText, ExtensionOrders.EveryCommitteeRecognised |
| components/utils.py:478-484 | `get_extension_orders_for_bill` reads the cached entry's `["extension_date"]` with `[]`. | The same URL-only marker as above makes `get_latest_extension_date` raise `KeyError`. | Treat the marker as "no readable date", as `get_latest_extension_date` already does for unparseable entries. | not executed | CachedExtensions.LatestExtensionDateAsWritten, CachedExtensions.MarkerMakesQueryRaise, CachedExtensions.SecondQueryRaises | CachedExtensions.LatestExtensionDateQuery, CachedExtensions.MarkerHasNoDate |
| app/routes/blog.py:860 | `flash("Please select … a reason." "error")`: the missing comma concatenates the literals. | Any rejected report: the message ends "reason.error" and the category is the default "message". | `flash(message, "error")`. | not executed | Blog.RejectionFlashAsWritten, Blog.RejectionFlashShowsCategory | Blog.RejectionFlash, Blog.SubmitReport |
