/**
 * The evidence resolver: finds a committee summary or a vote record for one bill
 * through a cost-ordered chain of parser modules, with a silent fast path for a
 * parser a person already confirmed, and records the landing parser in the cache.
 */
module Resolver {
  import opened Wrappers
  import opened Text
  import opened Sorting
  import opened Models
  import opened ParserCache
  import opened Llm
  import opened Confirmation

  // ---------------------------------------------------------------------------
  // Parser catalogues
  // ---------------------------------------------------------------------------

  /** One catalogue entry of the configuration: a module name and an optional cost. */
  datatype ParserSpec = ParserSpec(moduleName: string, cost: Option<int>)

  const DEFAULT_COST: int := 999

  /** The sort key `p.get("cost", 999)`. */
  function CostKey(p: ParserSpec): Key {
    [KInt(p.cost.GetOr(DEFAULT_COST))]
  }

  lemma CostKeyOrder(p: ParserSpec, q: ParserSpec)
    requires KeyLe(CostKey(p), CostKey(q))
    ensures p.cost.GetOr(DEFAULT_COST) <= q.cost.GetOr(DEFAULT_COST)
  {
    if CostKey(p) != CostKey(q) {
      assert KeyLt(CostKey(p), CostKey(q));
      assert CostKey(p)[1..] == [];
    }
  }

  /** Costs never decrease along the sequence. */
  ghost predicate CostOrdered(specs: seq<ParserSpec>) {
    forall i, j :: 0 <= i < j < |specs| ==> specs[i].cost.GetOr(DEFAULT_COST) <= specs[j].cost.GetOr(DEFAULT_COST)
  }

  /**
   * `_load_parsers` / `_load_votes_parsers`: the catalogue sorted by ascending cost
   * (a missing cost counts as 999), keeping catalogue order among equal costs.
   */
  function LoadParsers(catalogue: seq<ParserSpec>): (r: seq<ParserSpec>)
    ensures multiset(r) == multiset(catalogue)
    ensures CostOrdered(r)
    ensures forall k :: WithKey(r, CostKey, k) == WithKey(catalogue, CostKey, k)
  {
    var r := SortBy(catalogue, CostKey);
    SortByPermutation(catalogue, CostKey);
    SortBySorted(catalogue, CostKey);
    assert CostOrdered(r) by {
      forall i, j | 0 <= i < j < |r|
        ensures r[i].cost.GetOr(DEFAULT_COST) <= r[j].cost.GetOr(DEFAULT_COST)
      {
        CostKeyOrder(r[i], r[j]);
      }
    }
    assert forall k :: WithKey(r, CostKey, k) == WithKey(catalogue, CostKey, k) by {
      forall k
        ensures WithKey(r, CostKey, k) == WithKey(catalogue, CostKey, k)
      {
        SortByStable(catalogue, CostKey, k);
      }
    }
    r
  }

  /** The entries whose module is not `m`, in order. */
  function Without(specs: seq<ParserSpec>, m: string): (r: seq<ParserSpec>)
    ensures forall p :: p in r <==> p in specs && p.moduleName != m
    ensures |r| <= |specs|
  {
    if |specs| == 0 then []
    else (if specs[0].moduleName != m then [specs[0]] else []) + Without(specs[1..], m)
  }

  /** Dropping entries keeps an ascending cost order. */
  lemma {:induction false} WithoutKeepsOrder(specs: seq<ParserSpec>, m: string)
    requires CostOrdered(specs)
    ensures CostOrdered(Without(specs, m))
  {
    if |specs| > 0 {
      OrderedTail(specs);
      WithoutKeepsOrder(specs[1..], m);
      if specs[0].moduleName != m {
        OrderedCons(specs[0], Without(specs[1..], m));
      } else {
        assert Without(specs, m) == Without(specs[1..], m);
      }
    }
  }

  /** The tail of a cost-ordered sequence is cost-ordered and costs no less than its head. */
  lemma OrderedTail(specs: seq<ParserSpec>)
    requires CostOrdered(specs) && |specs| > 0
    ensures CostOrdered(specs[1..])
    ensures forall p :: p in specs[1..] ==> specs[0].cost.GetOr(DEFAULT_COST) <= p.cost.GetOr(DEFAULT_COST)
  {
    forall i, j | 0 <= i < j < |specs[1..]|
      ensures specs[1..][i].cost.GetOr(DEFAULT_COST) <= specs[1..][j].cost.GetOr(DEFAULT_COST)
    {
      assert specs[1..][i] == specs[i + 1] && specs[1..][j] == specs[j + 1];
    }
    forall p | p in specs[1..]
      ensures specs[0].cost.GetOr(DEFAULT_COST) <= p.cost.GetOr(DEFAULT_COST)
    {
      var k :| 0 <= k < |specs[1..]| && specs[1..][k] == p;
      assert specs[k + 1] == p;
    }
  }

  /** A head costing no more than anything in a cost-ordered tail keeps the order. */
  lemma OrderedCons(x: ParserSpec, tail: seq<ParserSpec>)
    requires CostOrdered(tail)
    requires forall p :: p in tail ==> x.cost.GetOr(DEFAULT_COST) <= p.cost.GetOr(DEFAULT_COST)
    ensures CostOrdered([x] + tail)
  {
    var r := [x] + tail;
    forall i, j | 0 <= i < j < |r|
      ensures r[i].cost.GetOr(DEFAULT_COST) <= r[j].cost.GetOr(DEFAULT_COST)
    {
      assert r[j] == tail[j - 1];
      if i > 0 {
        assert r[i] == tail[i - 1];
      }
    }
  }

  lemma SameMembers(a: seq<ParserSpec>, b: seq<ParserSpec>)
    requires multiset(a) == multiset(b)
    ensures forall p :: p in a <==> p in b
  {
    forall p
      ensures p in a <==> p in b
    {
      assert p in a <==> p in multiset(a);
      assert p in b <==> p in multiset(b);
    }
  }

  /**
   * The parser sequence: the catalogue by cost, and when a module is cached, that
   * module first with cost 0 and every other entry for it removed.
   */
  function BuildSequence(catalogue: seq<ParserSpec>, cached: Option<string>): (r: seq<ParserSpec>)
    ensures cached.Some? && |cached.value| > 0 ==>
              |r| > 0 && r[0] == ParserSpec(cached.value, Some(0))
              && (forall p :: p in r[1..] <==> p in catalogue && p.moduleName != cached.value)
              && CostOrdered(r[1..])
    ensures !(cached.Some? && |cached.value| > 0) ==> r == LoadParsers(catalogue)
  {
    var sorted := LoadParsers(catalogue);
    if cached.Some? && |cached.value| > 0 then
      var rest := Without(sorted, cached.value);
      WithoutKeepsOrder(sorted, cached.value);
      SameMembers(sorted, catalogue);
      var r := [ParserSpec(cached.value, Some(0))] + rest;
      assert r[1..] == rest;
      r
    else sorted
  }

  /** The cached module occurs exactly once in the sequence, at its head. */
  lemma CachedModuleOnce(catalogue: seq<ParserSpec>, m: string)
    requires |m| > 0
    ensures var r := BuildSequence(catalogue, Some(m));
            r[0].moduleName == m && forall i :: 1 <= i < |r| ==> r[i].moduleName != m
  {
    var r := BuildSequence(catalogue, Some(m));
    forall i | 1 <= i < |r|
      ensures r[i].moduleName != m
    {
      assert r[i] == r[1..][i - 1];
    }
  }

  // ---------------------------------------------------------------------------
  // Parser behaviour, passed in
  // ---------------------------------------------------------------------------

  /** The source-specific fields of a discovered candidate. */
  datatype Candidate = Candidate(fullText: Option<string>, preview: Option<string>, sourceUrl: Option<string>)

  /** What `discover` does for the current bill: a candidate, nothing (None or an empty dict), or an exception. */
  datatype Discovery = Found(candidate: Candidate) | NotFound | Raises

  /** What `parse` does for the discovered candidate. */
  datatype ParseOutcome = Parsed(sourceUrl: Option<string>, location: Option<string>) | ParseRaises

  /** A parser module's behaviour on the current bill. */
  datatype Strategy = Strategy(discover: Discovery, parse: ParseOutcome)

  /** An exception that escapes the resolver. */
  datatype Crash = ImportFailed(moduleName: string) | DiscoverFailed(moduleName: string) | ParseFailed(moduleName: string)
                 | ConfirmFailed(moduleName: string)

  /**
   * The world the resolver runs in: the importable modules, whether the configuration
   * is non-empty, the LLM, and the person's answer for a given prompt text.
   */
  datatype Env = Env(registry: map<string, Strategy>, hasConfig: bool, llm: LlmOracle, human: string -> bool)

  /** The configuration keys the resolver reads. */
  datatype Config = Config(reviewMode: string, summaryParsers: seq<ParserSpec>, votesParsers: seq<ParserSpec>)

  /** `cfg.get("review_mode", "on").lower() == "on"`. */
  predicate ReviewOn(cfg: Config) {
    Lower(cfg.reviewMode) == "on"
  }

  datatype Kind = Summary | Votes

  function KindKey(kind: Kind): string {
    match kind
    case Summary => "summary"
    case Votes => "votes"
  }

  function Catalogue(cfg: Config, kind: Kind): seq<ParserSpec> {
    match kind
    case Summary => cfg.summaryParsers
    case Votes => cfg.votesParsers
  }

  /** The result when nothing landed. */
  function Absent(): Evidence {
    Evidence(false, "unknown", None, None, false)
  }

  // ---------------------------------------------------------------------------
  // Locations
  // ---------------------------------------------------------------------------

  /** `_infer_location_from_module`: the first of embedded, bill_pdf, hearing, committee the name contains. */
  function InferLocation(m: string): (r: string)
    ensures Contains(m, "embedded") ==> r == "bill_embedded"
    ensures !Contains(m, "embedded") && Contains(m, "bill_pdf") ==> r == "bill_pdf"
    ensures !Contains(m, "embedded") && !Contains(m, "bill_pdf") && Contains(m, "hearing") ==> r == "hearing_docs"
    ensures !Contains(m, "embedded") && !Contains(m, "bill_pdf") && !Contains(m, "hearing") && Contains(m, "committee")
            ==> r == "committee_docs"
    ensures r == "unknown" <==>
              !Contains(m, "embedded") && !Contains(m, "bill_pdf") && !Contains(m, "hearing") && !Contains(m, "committee")
  {
    if Contains(m, "embedded") then "bill_embedded"
    else if Contains(m, "bill_pdf") then "bill_pdf"
    else if Contains(m, "hearing") then "hearing_docs"
    else if Contains(m, "committee") then "committee_docs"
    else "unknown"
  }

  /**
   * Where accepted evidence was found: summaries by the module name alone, votes by
   * the location the parser reported, else by the module name.
   */
  function LocationFor(kind: Kind, m: string, parsedLocation: Option<string>): (r: string)
    ensures kind == Summary ==> (r == "hearing_pdf" <==> Contains(m, "hearing")) && r in {"hearing_pdf", "bill_tab"}
    ensures kind == Votes && parsedLocation.Some? && |parsedLocation.value| > 0 ==> r == parsedLocation.value
    ensures kind == Votes && !(parsedLocation.Some? && |parsedLocation.value| > 0) ==> r == InferLocation(m)
  {
    match kind
    case Summary => if Contains(m, "hearing") then "hearing_pdf" else "bill_tab"
    case Votes =>
      if parsedLocation.Some? && |parsedLocation.value| > 0 then parsedLocation.value else InferLocation(m)
  }

  // ---------------------------------------------------------------------------
  // Confirmation of a candidate
  // ---------------------------------------------------------------------------

  /** `candidate.get("full_text", candidate.get("preview", ""))`. */
  function PreviewText(c: Candidate): string {
    match c.fullText
    case Some(t) => t
    case None => c.preview.GetOr("")
  }

  function DocType(kind: Kind): string {
    match kind
    case Summary => "summary"
    case Votes => "vote record"
  }

  function DefaultPrompt(kind: Kind): string {
    match kind
    case Summary => "Use this summary?"
    case Votes => "Use this vote source?"
  }

  /**
   * The text shown to the LLM: a long preview on its own (the preview dialog);
   * otherwise the prompt, followed by a blank line and the source URL when there is one.
   */
  function ConfirmationContent(kind: Kind, c: Candidate): (r: string)
    ensures |PreviewText(c)| > 140 ==> r == PreviewText(c)
    ensures |PreviewText(c)| <= 140 ==>
              StartsWith(r, if |PreviewText(c)| > 0 then PreviewText(c) else DefaultPrompt(kind))
    ensures |r| > 0
  {
    var preview := PreviewText(c);
    if |preview| > 140 then preview
    else
      var prompt := if |preview| > 0 then preview else DefaultPrompt(kind);
      match c.sourceUrl
      case Some(url) => if |url| > 0 then prompt + "\n\n" + url else prompt
      case None => prompt
  }

  /** Whether the candidate is accepted in review mode; a prompt that does not format escapes. */
  function Accepts(env: Env, kind: Kind, bill: string, c: Candidate): Result<bool, LlmFailure> {
    var content := ConfirmationContent(kind, c);
    match AskYesNoWithLlmFallback(env.hasConfig, bill, env.llm, content, DocType(kind), env.human(content))
    case Err(e) => Err(e)
    case Ok((accepted, _)) => Ok(accepted)
  }

  // ---------------------------------------------------------------------------
  // The walk over the parser sequence
  // ---------------------------------------------------------------------------

  /**
   * The main loop: modules that fail to import are skipped, as are candidates that
   * are missing or (in review mode) rejected; the first accepted candidate is
   * parsed, recorded in the cache and returned. `discover` and `parse` may raise,
   * and so may the review when the LLM prompt does not format.
   */
  function Walk(specs: seq<ParserSpec>, kind: Kind, review: bool, env: Env, cache: Cache, bill: string, now: string)
    : (r: Result<(Evidence, Cache), Crash>)
    ensures r.Ok? && !r.value.0.present ==> r.value == (Absent(), cache)
    ensures r.Ok? && r.value.0.present ==>
              && r.value.0.parserModule.Some?
              && (exists p :: p in specs && p.moduleName == r.value.0.parserModule.value)
              && r.value.0.parserModule.value in env.registry
              && r.value.0.needsReview == !review
              && r.value.1 == SetParser(cache, bill, KindKey(kind), r.value.0.parserModule.value, review, now)
    ensures r.Err? ==> exists p :: p in specs && p.moduleName == r.error.moduleName
    decreases |specs|
  {
    if |specs| == 0 then Ok((Absent(), cache))
    else
      var m := specs[0].moduleName;
      if m !in env.registry then Walk(specs[1..], kind, review, env, cache, bill, now)
      else
        var strategy := env.registry[m];
        match strategy.discover
        case Raises => Err(DiscoverFailed(m))
        case NotFound => Walk(specs[1..], kind, review, env, cache, bill, now)
        case Found(c) =>
          var verdict := if review then Accepts(env, kind, bill, c) else Ok(true);
          if verdict.Err? then Err(ConfirmFailed(m))
          else if !verdict.value then Walk(specs[1..], kind, review, env, cache, bill, now)
          else match strategy.parse
               case ParseRaises => Err(ParseFailed(m))
               case Parsed(url, loc) =>
                 Ok((Evidence(true, LocationFor(kind, m, loc), url, Some(m), !review),
                     SetParser(cache, bill, KindKey(kind), m, review, now)))
  }

  /** The sequence the walk runs over for this bill and kind. */
  function SequenceFor(cfg: Config, kind: Kind, cache: Cache, bill: string): seq<ParserSpec> {
    BuildSequence(Catalogue(cfg, kind), GetParser(cache, bill, KindKey(kind)))
  }

  /** A cached module is confirmed and worth the fast path. */
  predicate HasConfirmedCache(cache: Cache, bill: string, kind: Kind) {
    var cached := GetParser(cache, bill, KindKey(kind));
    cached.Some? && |cached.value| > 0 && IsConfirmed(cache, bill, KindKey(kind))
  }

  /** The evidence returned by the fast path of a confirmed module. */
  function FastEvidence(kind: Kind, m: string, url: Option<string>, loc: Option<string>): Evidence {
    match kind
    case Summary => Evidence(true, "hearing_pdf", url, Some(m), false)
    case Votes => Evidence(true, LocationFor(Votes, m, loc), url, Some(m), false)
  }

  /**
   * The fast path that tolerates failures (the votes resolver's behaviour): a
   * confirmed module that is missing, raises, or finds nothing makes the resolver
   * fall back to the full walk.
   */
  function Resolve(kind: Kind, cfg: Config, env: Env, cache: Cache, bill: string, now: string)
    : (r: Result<(Evidence, Cache), Crash>)
    ensures r.Ok? && r.value.0.present && r.value.1 == cache ==> r.value.0.parserModule.Some?
    ensures r.Ok? && !r.value.0.present ==> r.value == (Absent(), cache)
  {
    var walk := Walk(SequenceFor(cfg, kind, cache, bill), kind, ReviewOn(cfg), env, cache, bill, now);
    if HasConfirmedCache(cache, bill, kind) then
      var m := GetParser(cache, bill, KindKey(kind)).value;
      if m in env.registry && env.registry[m].discover.Found? && env.registry[m].parse.Parsed? then
        var parsed := env.registry[m].parse;
        Ok((FastEvidence(kind, m, parsed.sourceUrl, parsed.location), cache))
      else walk
    else walk
  }

  /**
   * `resolve_summary_for_bill` as written: the fast path runs outside any exception
   * handler, so a confirmed module that cannot be imported, or whose `discover` or
   * `parse` raises, escapes the resolver.
   */
  function ResolveSummaryAsWritten(cfg: Config, env: Env, cache: Cache, bill: string, now: string)
    : (r: Result<(Evidence, Cache), Crash>)
    ensures HasConfirmedCache(cache, bill, Summary) && GetParser(cache, bill, "summary").value !in env.registry
            ==> r == Err(ImportFailed(GetParser(cache, bill, "summary").value))
    ensures r.Ok? ==> r == ResolveSummary(cfg, env, cache, bill, now)
  {
    var walk := Walk(SequenceFor(cfg, Summary, cache, bill), Summary, ReviewOn(cfg), env, cache, bill, now);
    if HasConfirmedCache(cache, bill, Summary) then
      var m := GetParser(cache, bill, "summary").value;
      if m !in env.registry then Err(ImportFailed(m))
      else match env.registry[m].discover
           case Raises => Err(DiscoverFailed(m))
           case NotFound => walk
           case Found(_) =>
             match env.registry[m].parse
             case ParseRaises => Err(ParseFailed(m))
             case Parsed(url, _) => Ok((FastEvidence(Summary, m, url, None), cache))
    else walk
  }

  /** `resolve_summary_for_bill` with its fast path guarded like the votes resolver's. */
  function ResolveSummary(cfg: Config, env: Env, cache: Cache, bill: string, now: string)
    : Result<(Evidence, Cache), Crash>
  {
    Resolve(Summary, cfg, env, cache, bill, now)
  }

  /** `resolve_votes_for_bill`. */
  function ResolveVotes(cfg: Config, env: Env, cache: Cache, bill: string, now: string)
    : Result<(Evidence, Cache), Crash>
  {
    Resolve(Votes, cfg, env, cache, bill, now)
  }

  // ---------------------------------------------------------------------------
  // Properties of the resolver
  // ---------------------------------------------------------------------------

  /**
   * A confirmed module that still finds and parses its candidate lands silently:
   * no review flag, no cache write, and no other module or confirmation is consulted.
   */
  lemma ConfirmedFastPath(kind: Kind, cfg: Config, env: Env, env': Env, cache: Cache, bill: string, now: string)
    requires HasConfirmedCache(cache, bill, kind)
    requires var m := GetParser(cache, bill, KindKey(kind)).value;
             m in env.registry && env.registry[m].discover.Found? && env.registry[m].parse.Parsed?
    requires var m := GetParser(cache, bill, KindKey(kind)).value;
             m in env'.registry && env'.registry[m] == env.registry[m]
    ensures var r := Resolve(kind, cfg, env, cache, bill, now);
            var m := GetParser(cache, bill, KindKey(kind)).value;
            r.Ok? && r.value.1 == cache && r.value.0.present && !r.value.0.needsReview
            && r.value.0.parserModule == Some(m)
            && r.value.0.sourceUrl == env.registry[m].parse.sourceUrl
    ensures Resolve(kind, cfg, env', cache, bill, now) == Resolve(kind, cfg, env, cache, bill, now)
  {
  }

  /** A confirmed module that is gone, raises, or finds nothing sends the resolver through the full walk. */
  lemma StaleCacheFallsThrough(kind: Kind, cfg: Config, env: Env, cache: Cache, bill: string, now: string)
    requires HasConfirmedCache(cache, bill, kind)
    requires var m := GetParser(cache, bill, KindKey(kind)).value;
             !(m in env.registry && env.registry[m].discover.Found? && env.registry[m].parse.Parsed?)
    ensures Resolve(kind, cfg, env, cache, bill, now)
         == Walk(SequenceFor(cfg, kind, cache, bill), kind, ReviewOn(cfg), env, cache, bill, now)
  {
  }

  /** In review mode, a rejected candidate moves the walk on with the cache untouched. */
  lemma RejectedCandidateSkipped(specs: seq<ParserSpec>, kind: Kind, env: Env, cache: Cache, bill: string,
                                 now: string)
    requires |specs| > 0 && specs[0].moduleName in env.registry
    requires env.registry[specs[0].moduleName].discover.Found?
    requires Accepts(env, kind, bill, env.registry[specs[0].moduleName].discover.candidate) == Ok(false)
    ensures Walk(specs, kind, true, env, cache, bill, now) == Walk(specs[1..], kind, true, env, cache, bill, now)
  {
  }

  /**
   * In review mode, with the LLM consulted and a prompt that does not format, the
   * first candidate found stops the resolver: the exception escapes the confirmation.
   */
  lemma UnformattablePromptStopsWalk(specs: seq<ParserSpec>, kind: Kind, env: Env, cache: Cache, bill: string,
                                     now: string)
    requires |specs| > 0 && specs[0].moduleName in env.registry
    requires env.registry[specs[0].moduleName].discover.Found?
    requires env.hasConfig && |bill| > 0
    requires env.llm.parserCreated && env.llm.cfg.enabled && env.llm.available && !env.llm.cfg.promptFormats
    ensures Walk(specs, kind, true, env, cache, bill, now) == Err(ConfirmFailed(specs[0].moduleName))
  {
    var c := env.registry[specs[0].moduleName].discover.candidate;
    var content := ConfirmationContent(kind, c);
    UnformattablePromptEscapes(env.hasConfig, bill, env.llm, content, DocType(kind), env.human(content));
  }

  /** The first module that is importable and whose discovery does not come back empty. */
  function FirstDecisive(specs: seq<ParserSpec>, env: Env): (r: Option<nat>)
    ensures r.Some? ==> r.value < |specs| && specs[r.value].moduleName in env.registry
                        && !env.registry[specs[r.value].moduleName].discover.NotFound?
    ensures r.Some? ==> forall j :: 0 <= j < r.value ==>
              specs[j].moduleName !in env.registry || env.registry[specs[j].moduleName].discover.NotFound?
    ensures r.None? ==> forall j :: 0 <= j < |specs| ==>
              specs[j].moduleName !in env.registry || env.registry[specs[j].moduleName].discover.NotFound?
  {
    if |specs| == 0 then None
    else if specs[0].moduleName in env.registry && !env.registry[specs[0].moduleName].discover.NotFound? then Some(0)
    else match FirstDecisive(specs[1..], env)
         case None => None
         case Some(k) => Some(k + 1)
  }

  /**
   * With review mode off, the walk takes the first module that discovers anything:
   * its candidate is accepted unreviewed (flagged for review, cached unconfirmed),
   * and an exception from it escapes; when there is none, nothing lands.
   */
  lemma {:induction false} ReviewOffTakesFirst(specs: seq<ParserSpec>, kind: Kind, env: Env, cache: Cache,
                                               bill: string, now: string)
    ensures var r := Walk(specs, kind, false, env, cache, bill, now);
            match FirstDecisive(specs, env)
            case None => r == Ok((Absent(), cache))
            case Some(i) =>
              var m := specs[i].moduleName;
              var st := env.registry[m];
              r == (if st.discover.Raises? then Err(DiscoverFailed(m))
                    else if st.parse.ParseRaises? then Err(ParseFailed(m))
                    else Ok((Evidence(true, LocationFor(kind, m, st.parse.location), st.parse.sourceUrl, Some(m), true),
                             SetParser(cache, bill, KindKey(kind), m, false, now))))
    decreases |specs|
  {
    if |specs| > 0 {
      ReviewOffTakesFirst(specs[1..], kind, env, cache, bill, now);
      var m := specs[0].moduleName;
      if m in env.registry && !env.registry[m].discover.NotFound? {
        assert FirstDecisive(specs, env) == Some(0);
      } else {
        match FirstDecisive(specs[1..], env)
        case None =>
        case Some(k) =>
          assert FirstDecisive(specs, env) == Some(k + 1);
          assert specs[k + 1] == specs[1..][k];
      }
    }
  }

  /**
   * What lands is written to the cache as the parser for this bill and kind, and it
   * counts as confirmed exactly when review mode is on.
   */
  lemma LandingIsRecorded(kind: Kind, cfg: Config, env: Env, cache: Cache, bill: string, now: string)
    requires var r := Resolve(kind, cfg, env, cache, bill, now);
             r.Ok? && r.value.0.present && r.value.1 != cache
    ensures var r := Resolve(kind, cfg, env, cache, bill, now);
            GetParser(r.value.1, bill, KindKey(kind)) == r.value.0.parserModule
            && IsConfirmed(r.value.1, bill, KindKey(kind)) == ReviewOn(cfg)
            && r.value.0.needsReview == !ReviewOn(cfg)
  {
    var r := Resolve(kind, cfg, env, cache, bill, now);
    GetAfterSetParser(cache, bill, KindKey(kind), r.value.0.parserModule.value, ReviewOn(cfg), now);
  }

  /** The resolver touches no cache entry other than the parser entry for this bill and kind. */
  lemma ResolveFrame(kind: Kind, cfg: Config, env: Env, cache: Cache, bill: string, now: string)
    requires Resolve(kind, cfg, env, cache, bill, now).Ok?
    ensures var c' := Resolve(kind, cfg, env, cache, bill, now).value.1;
            forall b, k :: (b != bill || k != KindKey(kind)) ==> Entry(c', b, k) == Entry(cache, b, k)
  {
  }

  // ---------------------------------------------------------------------------
  // The unguarded summary fast path
  // ---------------------------------------------------------------------------

  /** A cache whose summary entry is a confirmed module that no longer exists, and an empty catalogue. */
  lemma SummaryFastPathCrashes(env: Env, now: string)
    requires "gone" !in env.registry
    ensures var cache := SetParser(EMPTY, "H73", "summary", "gone", true, now);
            var cfg := Config("on", [], []);
            ResolveSummaryAsWritten(cfg, env, cache, "H73", now) == Err(ImportFailed("gone"))
            && ResolveSummary(cfg, env, cache, "H73", now) == Ok((Absent(), cache))
  {
    var cache := SetParser(EMPTY, "H73", "summary", "gone", true, now);
    GetAfterSetParser(EMPTY, "H73", "summary", "gone", true, now);
    var cfg := Config("on", [], []);
    var specs := SequenceFor(cfg, Summary, cache, "H73");
    assert specs[1..] == [];
    assert Walk(specs[1..], Summary, ReviewOn(cfg), env, cache, "H73", now) == Ok((Absent(), cache));
  }

  /** Whenever the confirmed summary module imports and neither of its calls raises, the two versions agree. */
  lemma SummaryVersionsAgree(cfg: Config, env: Env, cache: Cache, bill: string, now: string)
    requires HasConfirmedCache(cache, bill, Summary) ==>
               var m := GetParser(cache, bill, "summary").value;
               m in env.registry && !env.registry[m].discover.Raises?
               && (env.registry[m].discover.Found? ==> env.registry[m].parse.Parsed?)
    ensures ResolveSummaryAsWritten(cfg, env, cache, bill, now) == ResolveSummary(cfg, env, cache, bill, now)
  {
  }
}
