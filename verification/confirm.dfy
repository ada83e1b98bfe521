/**
 * Yes/no confirmation of a discovered document: the LLM is asked first when a
 * configuration and a bill id are at hand, and a person decides whenever the LLM
 * does not answer a clear yes or no.
 */
module Confirmation {
  import opened Wrappers
  import opened Llm

  /**
   * Everything the LLM side depends on: the LLM settings, whether the parser object
   * could be built, whether the service answers its probe, and the reply it would
   * give for a given content string.
   */
  datatype LlmOracle = LlmOracle(cfg: LlmConfig, parserCreated: bool, available: bool, reply: string -> Reply)

  /**
   * `ask_llm_decision`: a parser is built only when the LLM or its audit log is
   * enabled; when it cannot be built there is no decision and no audit entry. An
   * exception from `make_decision` is not caught.
   */
  function AskLlmDecision(llm: LlmOracle, content: string, docType: string, billId: string)
    : (r: Result<(Option<Decision>, seq<AuditEntry>), LlmFailure>)
    ensures !(llm.cfg.enabled || llm.cfg.auditEnabled) || !llm.parserCreated ==> r == Ok((None, []))
    ensures r.Err? <==> llm.parserCreated && llm.cfg.enabled && llm.available && !llm.cfg.promptFormats
    ensures r.Ok? && r.value.0.Some? ==> llm.cfg.enabled && llm.available
    ensures r.Ok? ==> |r.value.1| == (if llm.parserCreated && llm.cfg.auditEnabled then 1 else 0)
  {
    if llm.cfg.enabled || llm.cfg.auditEnabled then
      if llm.parserCreated then MakeDecision(llm.cfg, llm.available, llm.reply(content), content, docType, billId)
      else Ok((None, []))
    else Ok((None, []))
  }

  /**
   * `ask_yes_no_with_llm_fallback` and its preview variant (they route the same way):
   * with a configuration and a bill id the LLM is asked; "yes" and "no" decide,
   * anything else defers to the person's answer `human`. A prompt that does not
   * format escapes, as it does from `ask_llm_decision`.
   */
  function AskYesNoWithLlmFallback(hasConfig: bool, billId: string, llm: LlmOracle, content: string,
                                   docType: string, human: bool): (r: Result<(bool, seq<AuditEntry>), LlmFailure>)
    ensures !(hasConfig && |billId| > 0) ==> r == Ok((human, []))
    ensures r.Err? <==> hasConfig && |billId| > 0 && AskLlmDecision(llm, content, docType, billId).Err?
    ensures r.Ok? ==> |r.value.1| <= 1
  {
    if hasConfig && |billId| > 0 then
      match AskLlmDecision(llm, content, docType, billId)
      case Err(e) => Err(e)
      case Ok((decision, log)) =>
        match decision
        case Some(Yes) => Ok((true, log))
        case Some(No) => Ok((false, log))
        case _ => Ok((human, log))
    else Ok((human, []))
  }

  /** A clear LLM answer overrides the person; otherwise the person's answer stands. */
  lemma LlmAnswerDecides(hasConfig: bool, billId: string, llm: LlmOracle, content: string, docType: string,
                         human: bool)
    requires hasConfig && |billId| > 0
    requires AskLlmDecision(llm, content, docType, billId).Ok?
    ensures var d := AskLlmDecision(llm, content, docType, billId).value.0;
            var r := AskYesNoWithLlmFallback(hasConfig, billId, llm, content, docType, human);
            r.Ok? && r.value.0 == (if d == Some(Yes) then true else if d == Some(No) then false else human)
  {
    var asked := AskLlmDecision(llm, content, docType, billId).value;
    assert AskYesNoWithLlmFallback(hasConfig, billId, llm, content, docType, human).value.0
        == (match asked.0 case Some(Yes) => true case Some(No) => false case _ => human);
  }

  /** A prompt that does not format stops the confirmation whenever the LLM would be asked. */
  lemma UnformattablePromptEscapes(hasConfig: bool, billId: string, llm: LlmOracle, content: string,
                                   docType: string, human: bool)
    requires hasConfig && |billId| > 0
    requires llm.parserCreated && llm.cfg.enabled && llm.available && !llm.cfg.promptFormats
    ensures AskYesNoWithLlmFallback(hasConfig, billId, llm, content, docType, human) == Err(PromptNotFormattable)
  {
  }

  /** When the LLM is switched off (with or without audit), the person always decides. */
  lemma DisabledLlmDefersToHuman(hasConfig: bool, billId: string, llm: LlmOracle, content: string,
                                 docType: string, human: bool)
    requires !llm.cfg.enabled
    ensures AskYesNoWithLlmFallback(hasConfig, billId, llm, content, docType, human).Ok?
    ensures AskYesNoWithLlmFallback(hasConfig, billId, llm, content, docType, human).value.0 == human
  {
  }
}
