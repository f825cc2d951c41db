/** The result records built by the three language-model callers, for every outcome
    of the call: no API key, a raised error, a reply that is not JSON, a JSON reply.
    The model service and `json.loads` are parameters (`Env`). */
module Llm {
  import opened Text
  import opened Values

  /** What the client call does: it raises (with the text of the exception) or
      returns the raw message content. */
  datatype Response = Failure(message: string) | Completion(raw: string)

  /** A call as the caller sees it. */
  datatype Outcome = NoKey | Raised(message: string) | Reply(content: string)

  /** `json.loads` of a reply: a JSON object, or a decoding error. */
  datatype Parsed = Json(obj: Dict) | NotJson

  /** The model service: whether a key is configured, what each prompt gets back,
      and the JSON decoder. */
  datatype Env = Env(
    hasKey: bool,
    improve: (string, string, string) -> Response,
    improveForRelevance: (string, string, string, string, real, real) -> Response,
    critique: (Value, Value, string, string) -> Response,
    decode: string -> Parsed)

  /** With no client the call is never made; otherwise its content is stripped. */
  function OutcomeOf(hasKey: bool, r: Response): (o: Outcome)
    ensures o.NoKey? <==> !hasKey
    ensures o.Raised? <==> hasKey && r.Failure?
    ensures o.Raised? ==> o.message == r.message
    ensures o.Reply? ==> r.Completion? && o.content == Strip(r.raw)
  {
    if !hasKey then NoKey
    else match r
      case Failure(msg) => Raised(msg)
      case Completion(raw) => Reply(Strip(raw))
  }

  /** The decoded object of a reply, if it decodes. */
  function Decoded(env: Env, o: Outcome): (d: Option<Dict>)
    ensures d.Some? <==> o.Reply? && env.decode(o.content).Json?
    ensures d.Some? ==> d.value == env.decode(o.content).obj
  {
    if o.Reply? && env.decode(o.content).Json? then Some(env.decode(o.content).obj) else None
  }

  // The fixed texts of the fallback records.
  const ReturnedCurrent: string := "; returned current bullet."
  const ReturnedOriginal: string := "; returned original bullet."
  const CritiqueCallFailed: string := "Critique API call failed: "
  const GroqCallFailed: string := "Groq API call failed: "
  const ApiCallFailed: string := "API call failed: "
  const PlaceholderWhy: string := "Acts as a placeholder until real LLM integration is enabled."
  const SafeFallbackWhy: string := "Acts as a safe fallback when the model is unavailable."
  const NoModelCritique: string := "Cannot evaluate hallucinations without model access."
  const NoAccessWhy: string := "Cannot improve without API access."
  const NotJsonKeepsCurrent: string := "Model returned non-JSON output; keeping current bullet."
  const NotJsonKeepsOriginal: string := "Model returned non-JSON output; keeping original bullet."
  const ParsingErrorWhy: string := "N/A due to parsing error."
  const NoKeyKeepsCurrent: string := "No Groq API key configured; returned current bullet."
  const NoKeyKeepsOriginal: string := "No Groq API key configured; returned the original bullet."
  const NoKeySkipsCritique: string := "No Groq API key configured; skipping critique."
  const UnparsedCritique: string := "Unable to parse model response."
  const RelevanceCritiqueError: string := "Unable to run critique due to model error."
  const SelfCritiqueError: string := "Unable to run self-critique due to model error."
  const CritiqueApiError: string := "critique_api_error"
  const CritiqueOutputNotJson: string := "critique_output_not_json"
  const GroqApiError: string := "groq_api_error"
  const ImproveRelevanceApiError: string := "improve_relevance_api_error"
  const ModelOutputNotJson: string := "model_output_not_json"

  const ImproveKeys: set<Key> := {
    Improved, Explanation, WhyItWorks, SelfCritique, IsSupportedByResume,
    Issues, EvidenceSnippets
  }

  const NoKeyRelevanceKeys: set<Key> := {Improved, Explanation, WhyItWorks, RelevanceImprovements}

  const CritiqueKeys: set<Key> := {
    SelfCritique, IsSupportedByResume, Issues, EvidenceSnippets
  }

  /** A fallback record: it claims support and quotes no evidence. */
  predicate IsFallback(d: Dict) {
    IsSupportedByResume in d && d[IsSupportedByResume] == Bool(true) &&
    EvidenceSnippets in d && d[EvidenceSnippets] == Arr([])
  }

  // ---------------------------------------------------------------------------
  // `call_bullet_improvement`

  /** The fallback record of `call_bullet_improvement`: the stripped bullet, supported,
      with no evidence. */
  function ImproveFallback(bullet: string, explanation: string, why: string, selfCritique: string,
                           issues: seq<string>): (d: Dict)
    ensures d.Keys == ImproveKeys && IsFallback(d)
    ensures d[Improved] == Str(Strip(bullet)) && d[Explanation] == Str(explanation)
    ensures d[WhyItWorks] == Str(why) && d[SelfCritique] == Str(selfCritique) && d[Issues] == StrArr(issues)
  {
    map[
      Improved := Str(Strip(bullet)),
      Explanation := Str(explanation),
      WhyItWorks := Str(why),
      SelfCritique := Str(selfCritique),
      IsSupportedByResume := Bool(true),
      Issues := StrArr(issues),
      EvidenceSnippets := Arr([])]
  }

  function ImproveOutcome(env: Env, bullet: string, resume: string, jd: string): Outcome {
    OutcomeOf(env.hasKey, env.improve(bullet, resume, jd))
  }

  /** `call_bullet_improvement(bullet, resume_text, job_description)` */
  function Improvement(env: Env, bullet: string, resume: string, jd: string): Dict {
    match ImproveOutcome(env, bullet, resume, jd)
    case NoKey => ImproveFallback(bullet, NoKeyKeepsOriginal, PlaceholderWhy, NoModelCritique, [])
    case Raised(msg) =>
      ImproveFallback(bullet, GroqCallFailed + msg + ReturnedOriginal, SafeFallbackWhy, SelfCritiqueError, [GroqApiError])
    case Reply(content) =>
      match env.decode(content)
      case Json(data) => data
      case NotJson => ImproveFallback(bullet, NotJsonKeepsOriginal, ParsingErrorWhy, content, [ModelOutputNotJson])
  }

  /** Which record each outcome of the call produces: without a key, the placeholder;
      on a raised error, the error text and the issue "groq_api_error"; on a reply that
      is not JSON, the reply as the critique and the issue "model_output_not_json";
      on a JSON reply, the decoded object itself. */
  lemma ImprovementCases(env: Env, bullet: string, resume: string, jd: string)
    ensures var d, r := Improvement(env, bullet, resume, jd), env.improve(bullet, resume, jd);
      (!env.hasKey ==> d == ImproveFallback(bullet, NoKeyKeepsOriginal, PlaceholderWhy, NoModelCritique, [])) &&
      (env.hasKey && r.Failure? ==>
         d == ImproveFallback(bullet, GroqCallFailed + r.message + ReturnedOriginal, SafeFallbackWhy,
                              SelfCritiqueError, [GroqApiError])) &&
      (env.hasKey && r.Completion? && env.decode(Strip(r.raw)).NotJson? ==>
         d == ImproveFallback(bullet, NotJsonKeepsOriginal, ParsingErrorWhy, Strip(r.raw), [ModelOutputNotJson])) &&
      (env.hasKey && r.Completion? && env.decode(Strip(r.raw)).Json? ==> d == env.decode(Strip(r.raw)).obj)
  {
    var r := env.improve(bullet, resume, jd);
    if env.hasKey && r.Failure? {
      assert ImproveOutcome(env, bullet, resume, jd) == Raised(r.message);
    } else if env.hasKey && r.Completion? {
      assert ImproveOutcome(env, bullet, resume, jd) == Reply(Strip(r.raw));
    }
  }

  // ---------------------------------------------------------------------------
  // `call_self_critique`

  /** The fallback record of `call_self_critique`: supported, with no evidence. */
  function CritiqueFallback(selfCritique: string, issues: seq<string>): (d: Dict)
    ensures d.Keys == CritiqueKeys && IsFallback(d)
    ensures d[SelfCritique] == Str(selfCritique) && d[Issues] == StrArr(issues)
  {
    map[
      SelfCritique := Str(selfCritique),
      IsSupportedByResume := Bool(true),
      Issues := StrArr(issues),
      EvidenceSnippets := Arr([])]
  }

  function CritiqueOutcome(env: Env, original: Value, improved: Value, resume: string, jd: string): Outcome {
    OutcomeOf(env.hasKey, env.critique(original, improved, resume, jd))
  }

  /** `call_self_critique(original_bullet, improved_bullet, resume_text, job_description)` */
  function Critique(env: Env, original: Value, improved: Value, resume: string, jd: string): Dict {
    match CritiqueOutcome(env, original, improved, resume, jd)
    case NoKey => CritiqueFallback(NoKeySkipsCritique, [])
    case Raised(msg) => CritiqueFallback(CritiqueCallFailed + msg, [CritiqueApiError])
    case Reply(content) =>
      match env.decode(content)
      case Json(data) => data
      case NotJson => CritiqueFallback(content, [CritiqueOutputNotJson])
  }

  /** Which critique each outcome of the call produces. */
  lemma CritiqueCases(env: Env, original: Value, improved: Value, resume: string, jd: string)
    ensures var d, r := Critique(env, original, improved, resume, jd), env.critique(original, improved, resume, jd);
      (!env.hasKey ==> d == CritiqueFallback(NoKeySkipsCritique, [])) &&
      (env.hasKey && r.Failure? ==> d == CritiqueFallback(CritiqueCallFailed + r.message, [CritiqueApiError])) &&
      (env.hasKey && r.Completion? && env.decode(Strip(r.raw)).NotJson? ==>
         d == CritiqueFallback(Strip(r.raw), [CritiqueOutputNotJson])) &&
      (env.hasKey && r.Completion? && env.decode(Strip(r.raw)).Json? ==> d == env.decode(Strip(r.raw)).obj)
  {
    var r := env.critique(original, improved, resume, jd);
    if env.hasKey && r.Failure? {
      assert CritiqueOutcome(env, original, improved, resume, jd) == Raised(r.message);
    } else if env.hasKey && r.Completion? {
      assert CritiqueOutcome(env, original, improved, resume, jd) == Reply(Strip(r.raw));
      match env.decode(Strip(r.raw))
      case Json(data) =>
        assert Critique(env, original, improved, resume, jd) == data;
      case NotJson =>
        assert Critique(env, original, improved, resume, jd) == CritiqueFallback(Strip(r.raw), [CritiqueOutputNotJson]);
    }
  }

  /** The four critique fields as they are merged into a payload, with defaults
      "", True, [] and [] for keys the critique lacks. */
  function CritiqueFields(c: Dict): (u: Dict)
    ensures u.Keys == CritiqueKeys
    ensures forall k :: k in CritiqueKeys && k in c ==> u[k] == c[k]
    ensures SelfCritique !in c ==> u[SelfCritique] == Str("")
    ensures IsSupportedByResume !in c ==> u[IsSupportedByResume] == Bool(true)
    ensures Issues !in c ==> u[Issues] == Arr([])
    ensures EvidenceSnippets !in c ==> u[EvidenceSnippets] == Arr([])
  {
    map[
      SelfCritique := Get(c, SelfCritique, Str("")),
      IsSupportedByResume := Get(c, IsSupportedByResume, Bool(true)),
      Issues := Get(c, Issues, Arr([])),
      EvidenceSnippets := Get(c, EvidenceSnippets, Arr([]))]
  }

  /** A fallback critique merges in as it is. */
  lemma FallbackCritiqueFields(selfCritique: string, issues: seq<string>)
    ensures CritiqueFields(CritiqueFallback(selfCritique, issues)) == CritiqueFallback(selfCritique, issues)
  {
  }

  // ---------------------------------------------------------------------------
  // `call_bullet_improvement_for_relevance`

  /** The record without a key: the stripped current bullet and no critique fields. */
  function RelevanceNoKey(current: string): (d: Dict)
    ensures d.Keys == NoKeyRelevanceKeys
    ensures d[Improved] == Str(Strip(current)) && d[RelevanceImprovements] == Str("")
  {
    map[
      Improved := Str(Strip(current)),
      Explanation := Str(NoKeyKeepsCurrent),
      WhyItWorks := Str(NoAccessWhy),
      RelevanceImprovements := Str("")]
  }

  /** The fallback record after a failed or unparsable call: the stripped current bullet,
      no relevance improvement, supported, with no evidence. */
  function RelevanceFallback(current: string, explanation: string, selfCritique: string,
                             issues: seq<string>, why: string): (d: Dict)
    ensures d.Keys == ImproveKeys + {RelevanceImprovements} && IsFallback(d)
    ensures d[Improved] == Str(Strip(current)) && d[RelevanceImprovements] == Str("")
    ensures d[Explanation] == Str(explanation) && d[SelfCritique] == Str(selfCritique)
    ensures d[Issues] == StrArr(issues) && d[WhyItWorks] == Str(why)
  {
    map[
      Improved := Str(Strip(current)),
      Explanation := Str(explanation),
      WhyItWorks := Str(why),
      RelevanceImprovements := Str(""),
      SelfCritique := Str(selfCritique),
      IsSupportedByResume := Bool(true),
      Issues := StrArr(issues),
      EvidenceSnippets := Arr([])]
  }

  function RelevanceOutcome(env: Env, current: string, original: string, resume: string, jd: string,
                            target: real, currentRelevance: real): Outcome {
    OutcomeOf(env.hasKey, env.improveForRelevance(current, original, resume, jd, target, currentRelevance))
  }

  /** The critique run on a decoded reply: of its "improved" value, or the current bullet. */
  function RecheckCritique(env: Env, data: Dict, current: string, original: string, resume: string, jd: string): Dict {
    Critique(env, Str(original), Get(data, Improved, Str(current)), resume, jd)
  }

  /** `call_bullet_improvement_for_relevance(...)`: a JSON reply is critiqued again and
      the critique fields overwrite the reply's (`data.update`). */
  function RelevanceImprovement(env: Env, current: string, original: string, resume: string, jd: string,
                                target: real, currentRelevance: real): Dict {
    match RelevanceOutcome(env, current, original, resume, jd, target, currentRelevance)
    case NoKey => RelevanceNoKey(current)
    case Raised(msg) =>
      RelevanceFallback(current, ApiCallFailed + msg + ReturnedCurrent, RelevanceCritiqueError,
                        [ImproveRelevanceApiError], SafeFallbackWhy)
    case Reply(content) =>
      match env.decode(content)
      case Json(data) => data + CritiqueFields(RecheckCritique(env, data, current, original, resume, jd))
      case NotJson =>
        RelevanceFallback(current, NotJsonKeepsCurrent, UnparsedCritique, [ModelOutputNotJson], ParsingErrorWhy)
  }

  /** The body of `call_bullet_improvement_for_relevance`, updating the decoded dict in place. */
  method CallBulletImprovementForRelevance(env: Env, current: string, original: string, resume: string,
                                           jd: string, target: real, currentRelevance: real)
    returns (result: Dict)
    ensures result == RelevanceImprovement(env, current, original, resume, jd, target, currentRelevance)
  {
    var outcome := OutcomeOf(env.hasKey, env.improveForRelevance(current, original, resume, jd, target, currentRelevance));
    if outcome.NoKey? {
      return RelevanceNoKey(current);
    }
    if outcome.Raised? {
      return RelevanceFallback(current, ApiCallFailed + outcome.message + ReturnedCurrent, RelevanceCritiqueError,
                               [ImproveRelevanceApiError], SafeFallbackWhy);
    }
    var parsed := env.decode(outcome.content);
    if parsed.NotJson? {
      return RelevanceFallback(current, NotJsonKeepsCurrent, UnparsedCritique, [ModelOutputNotJson], ParsingErrorWhy);
    }
    var data := new Payload(parsed.obj);
    var critique := Critique(env, Str(original), Get(data.entries, Improved, Str(current)), resume, jd);
    data.Update(CritiqueFields(critique));
    result := data.entries;
  }

  /** Which record each outcome of the call produces; a JSON reply keeps every key
      of its own except the four critique fields, which come from a second critique
      of the reply's "improved" value (or of the current bullet). */
  lemma RelevanceCases(env: Env, current: string, original: string, resume: string, jd: string,
                       target: real, currentRelevance: real)
    ensures var d, r := RelevanceImprovement(env, current, original, resume, jd, target, currentRelevance),
                        env.improveForRelevance(current, original, resume, jd, target, currentRelevance);
      (!env.hasKey ==> d == RelevanceNoKey(current)) &&
      (env.hasKey && r.Failure? ==>
         d == RelevanceFallback(current, ApiCallFailed + r.message + ReturnedCurrent, RelevanceCritiqueError,
                                [ImproveRelevanceApiError], SafeFallbackWhy)) &&
      (env.hasKey && r.Completion? && env.decode(Strip(r.raw)).NotJson? ==>
         d == RelevanceFallback(current, NotJsonKeepsCurrent, UnparsedCritique, [ModelOutputNotJson], ParsingErrorWhy))
  {
    var r := env.improveForRelevance(current, original, resume, jd, target, currentRelevance);
    if env.hasKey && r.Failure? {
      assert RelevanceOutcome(env, current, original, resume, jd, target, currentRelevance) == Raised(r.message);
    } else if env.hasKey && r.Completion? {
      assert RelevanceOutcome(env, current, original, resume, jd, target, currentRelevance) == Reply(Strip(r.raw));
    }
  }

  /** A JSON reply is critiqued on its own "improved" value (or the current bullet), and
      exactly the four critique keys are overwritten, each with the critique's value or
      its default; every other key is the reply's. */
  lemma RelevanceMergesCritique(env: Env, current: string, original: string, resume: string, jd: string,
                                target: real, currentRelevance: real)
    requires env.hasKey && env.improveForRelevance(current, original, resume, jd, target, currentRelevance).Completion?
    requires env.decode(Strip(env.improveForRelevance(current, original, resume, jd, target, currentRelevance).raw)).Json?
    ensures var d := RelevanceImprovement(env, current, original, resume, jd, target, currentRelevance);
      var data := env.decode(Strip(env.improveForRelevance(current, original, resume, jd, target, currentRelevance).raw)).obj;
      var c := Critique(env, Str(original), Get(data, Improved, Str(current)), resume, jd);
      d == data + CritiqueFields(c) &&
      d.Keys == data.Keys + CritiqueKeys &&
      (forall k :: k in data && k !in CritiqueKeys ==> d[k] == data[k]) &&
      (forall k :: k in CritiqueKeys && k in c ==> d[k] == c[k]) &&
      (SelfCritique !in c ==> d[SelfCritique] == Str("")) &&
      (IsSupportedByResume !in c ==> d[IsSupportedByResume] == Bool(true)) &&
      (Issues !in c ==> d[Issues] == Arr([])) &&
      (EvidenceSnippets !in c ==> d[EvidenceSnippets] == Arr([]))
  {
    var r := env.improveForRelevance(current, original, resume, jd, target, currentRelevance);
    assert RelevanceOutcome(env, current, original, resume, jd, target, currentRelevance) == Reply(Strip(r.raw));
  }

  /** Every fallback of the three callers claims support and quotes no evidence
      (except the no-key record of the relevance caller, which has no such fields). */
  lemma FallbacksClaimSupport(env: Env, bullet: string, original: Value, improved: Value, current: string,
                              originalBullet: string, resume: string, jd: string, target: real, currentRelevance: real)
    ensures Decoded(env, ImproveOutcome(env, bullet, resume, jd)).None? ==>
      IsFallback(Improvement(env, bullet, resume, jd))
    ensures Decoded(env, CritiqueOutcome(env, original, improved, resume, jd)).None? ==>
      IsFallback(Critique(env, original, improved, resume, jd))
    ensures env.hasKey && Decoded(env, RelevanceOutcome(env, current, originalBullet, resume, jd, target, currentRelevance)).None? ==>
      IsFallback(RelevanceImprovement(env, current, originalBullet, resume, jd, target, currentRelevance))
  {
    ImprovementCases(env, bullet, resume, jd);
    CritiqueCases(env, original, improved, resume, jd);
    RelevanceCases(env, current, originalBullet, resume, jd, target, currentRelevance);
  }

  /** Without an API key the relevance improver returns only the stripped current
      bullet and the no-key texts. */
  lemma NoKeyRelevance(env: Env, current: string, original: string, resume: string, jd: string,
                       target: real, currentRelevance: real)
    requires !env.hasKey
    ensures RelevanceImprovement(env, current, original, resume, jd, target, currentRelevance) == RelevanceNoKey(current)
  {
  }

  /** Without a key neither caller reaches the model. */
  lemma NoKeyFallbacks(env: Env, bullet: string, original: Value, improved: Value, resume: string, jd: string)
    requires !env.hasKey
    ensures Improvement(env, bullet, resume, jd) == ImproveFallback(bullet, NoKeyKeepsOriginal, PlaceholderWhy, NoModelCritique, [])
    ensures Critique(env, original, improved, resume, jd) == CritiqueFallback(NoKeySkipsCritique, [])
  {
  }
}
