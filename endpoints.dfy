/** The two backend endpoints: `analyze` runs the pipeline and turns each payload dict
    into an `ImprovedBullet`; `improve_bullet` re-improves one bullet and re-scores it.
    A field that fails conversion or validation makes the request fail (`None`). */
module Endpoints {
  import opened Text
  import opened Values
  import opened Schemas
  import opened Parser
  import opened Embeddings
  import opened Llm
  import opened Graph

  // ---------------------------------------------------------------------------
  // Field conversions

  /** A `str` field: only a JSON string validates. */
  function AsStr(v: Value): (r: Option<string>)
    ensures r.Some? <==> v.Str?
    ensures r.Some? ==> r.value == v.s
  {
    if v.Str? then Some(v.s) else None
  }

  /** `list(v or [])` validated as `List[str]`: a falsy value gives [], a list must hold
      only strings, and a string is split into its characters; anything else fails. */
  function AsStrList(v: Value): (r: Option<seq<string>>)
    ensures !Truthy(v) ==> r == Some([])
    ensures v.Arr? && v.items != [] ==>
      (r.Some? <==> forall i :: 0 <= i < |v.items| ==> v.items[i].Str?)
    ensures v.Arr? && r.Some? ==> |r.value| == |v.items| && forall i :: 0 <= i < |v.items| ==> v.items[i] == Str(r.value[i])
    ensures v.Str? && v.s != [] ==> r.Some? && r.value == Characters(v.s)
    ensures (v.Num? || v.Bool?) && Truthy(v) ==> r.None?
  {
    if !Truthy(v) then Some([])
    else match v
      case Arr(items) =>
        if forall i :: 0 <= i < |items| ==> items[i].Str?
        then Some(StrValues(items))
        else None
      case Str(s) => Some(Characters(s))
      case _ => None
  }

  /** The strings of a JSON list of strings. */
  function StrValues(items: seq<Value>): (r: seq<string>)
    requires forall i :: 0 <= i < |items| ==> items[i].Str?
    ensures |r| == |items| && forall i :: 0 <= i < |items| ==> items[i] == Str(r[i])
  {
    if items == [] then [] else [items[0].s] + StrValues(items[1..])
  }

  /** A list of strings read back from its JSON form is the same list. */
  lemma AsStrListOfStrArr(xs: seq<string>)
    ensures AsStrList(StrArr(xs)) == Some(xs)
  {
    var v := StrArr(xs);
    if xs != [] {
      assert v.items[0] == Str(xs[0]);
      assert AsStrList(v).value == xs;
    } else {
      assert v == Arr([]);
    }
  }

  /** `float(v)` of a number or a bool; anything else fails. */
  function AsFloat(v: Value): (r: Option<real>)
    ensures v.Num? ==> r == Some(v.x)
    ensures v.Bool? ==> r == Some(if v.b then 1.0 else 0.0)
    ensures r.Some? <==> v.Num? || v.Bool?
  {
    match v
    case Num(x) => Some(x)
    case Bool(b) => Some(if b then 1.0 else 0.0)
    case _ => None
  }

  // ---------------------------------------------------------------------------
  // `analyze`

  /** `final_state.get("critique_payloads") or final_state.get("improved_payloads") or []` */
  function ChoosePayloads(critiquePayloads: seq<Payload>, improvedPayloads: seq<Payload>): (r: seq<Payload>)
    ensures critiquePayloads != [] ==> r == critiquePayloads
    ensures critiquePayloads == [] ==> r == improvedPayloads
  {
    if critiquePayloads != [] then critiquePayloads
    else if improvedPayloads != [] then improvedPayloads
    else []
  }

  /** One payload as an `ImprovedBullet`, with defaults "" for strings, True for the
      support flag, [] for lists and 0.0 for the score. */
  function ToImprovedBullet(d: Dict): (r: Option<ImprovedBullet>)
    ensures Get(d, Original, Str("")).Num? ==> r.None?
    ensures r.Some? ==>
      Str(r.value.original) == Get(d, Original, Str("")) && Str(r.value.improved) == Get(d, Improved, Str("")) &&
      r.value.isSupportedByResume == Truthy(Get(d, IsSupportedByResume, Bool(true)))
  {
    var original := AsStr(Get(d, Original, Str("")));
    var improved := AsStr(Get(d, Improved, Str("")));
    var explanation := AsStr(Get(d, Explanation, Str("")));
    var whyItWorks := AsStr(Get(d, WhyItWorks, Str("")));
    var selfCritique := AsStr(Get(d, SelfCritique, Str("")));
    var issues := AsStrList(Get(d, Issues, Arr([])));
    var evidence := AsStrList(Get(d, EvidenceSnippets, Arr([])));
    var score := AsFloat(Get(d, RelevanceScore, Num(0.0)));
    var snippet := AsStr(Get(d, MatchedJdSnippet, Str("")));
    if original.Some? && improved.Some? && explanation.Some? && whyItWorks.Some? && selfCritique.Some? &&
       issues.Some? && evidence.Some? && score.Some? && snippet.Some?
    then Some(ImprovedBullet(
      original.value, improved.value, explanation.value, whyItWorks.value, selfCritique.value,
      Truthy(Get(d, IsSupportedByResume, Bool(true))), issues.value, evidence.value, score.value, snippet.value))
    else None
  }

  /** A payload whose fields hold the JSON form of a bullet's fields converts to that
      bullet. */
  lemma ConvertsBack(d: Dict, b: ImprovedBullet)
    requires Get(d, Original, Str("")) == Str(b.original) && Get(d, Improved, Str("")) == Str(b.improved)
    requires Get(d, Explanation, Str("")) == Str(b.explanation) && Get(d, WhyItWorks, Str("")) == Str(b.whyItWorks)
    requires Get(d, SelfCritique, Str("")) == Str(b.selfCritique)
    requires Truthy(Get(d, IsSupportedByResume, Bool(true))) == b.isSupportedByResume
    requires Get(d, Issues, Arr([])) == StrArr(b.issues)
    requires Get(d, EvidenceSnippets, Arr([])) == StrArr(b.evidenceSnippets)
    requires Get(d, RelevanceScore, Num(0.0)) == Num(b.relevanceScore)
    requires Get(d, MatchedJdSnippet, Str("")) == Str(b.matchedJdSnippet)
    ensures ToImprovedBullet(d) == Some(b)
  {
    AsStrListOfStrArr(b.issues);
    AsStrListOfStrArr(b.evidenceSnippets);
  }

  /** A payload without any of the read keys converts to the all-defaults bullet. */
  lemma EmptyPayloadDefaults(d: Dict)
    requires forall k :: k in d ==> k.Other?
    ensures ToImprovedBullet(d) == Some(ImprovedBullet("", "", "", "", "", true, [], [], 0.0, ""))
  {
  }

  /** The bullets of a list of payloads, or `None` if one fails to convert. */
  function ToBullets(ds: seq<Dict>): (r: Option<seq<ImprovedBullet>>)
    ensures r.Some? <==> forall i :: 0 <= i < |ds| ==> ToImprovedBullet(ds[i]).Some?
    ensures r.Some? ==> |r.value| == |ds| && forall i :: 0 <= i < |ds| ==> r.value[i] == ToImprovedBullet(ds[i]).value
  {
    if ds == [] then Some([])
    else
      var init := ToBullets(ds[..|ds| - 1]);
      var last := ToImprovedBullet(ds[|ds| - 1]);
      if init.Some? && last.Some? then Some(init.value + [last.value]) else None
  }

  /** The loop of `analyze` that appends one `ImprovedBullet` per payload. */
  method BuildBullets(payloads: seq<Payload>) returns (r: Option<seq<ImprovedBullet>>)
    ensures r == ToBullets(Contents(payloads))
  {
    var bullets: seq<ImprovedBullet> := [];
    for i := 0 to |payloads|
      invariant ToBullets(Contents(payloads[..i])) == Some(bullets)
    {
      var bullet := ToImprovedBullet(payloads[i].entries);
      assert Contents(payloads[..i + 1])[..i] == Contents(payloads[..i]);
      if bullet.None? {
        assert ToBullets(Contents(payloads[..i + 1])) == None;
        PrefixFailure(Contents(payloads), i);
        return None;
      }
      bullets := bullets + [bullet.value];
    }
    assert payloads[..|payloads|] == payloads;
    r := Some(bullets);
  }

  /** A payload that fails to convert makes every longer list fail. */
  lemma PrefixFailure(ds: seq<Dict>, i: nat)
    requires i < |ds| && ToImprovedBullet(ds[i]).None?
    ensures ToBullets(ds) == None
  {
  }

  const NotesPrefix: string := "Processed "
  const NotesSuffix: string := " bullets through extract → map → improve → self-critique pipeline."

  /** The `notes` line of the response. */
  function Notes(n: nat): (r: string)
    ensures |r| == |NotesPrefix| + |NatToString(n)| + |NotesSuffix|
    ensures r[..|NotesPrefix|] == NotesPrefix && r[|NotesPrefix| + |NatToString(n)|..] == NotesSuffix
  {
    NotesPrefix + NatToString(n) + NotesSuffix
  }

  /** The count in the notes line reads back as the number of bullets. */
  lemma NotesReportCount(n: nat)
    ensures var digits := Notes(n)[|NotesPrefix|..|NotesPrefix| + |NatToString(n)|];
      (forall i :: 0 <= i < |digits| ==> IsDigit(digits[i])) && DecimalValue(digits) == n
  {
    var digits := Notes(n)[|NotesPrefix|..|NotesPrefix| + |NatToString(n)|];
    assert digits == NatToString(n);
    NatToStringRoundTrip(n);
  }

  /** What `analyze` returns for a request: the bullets of the pipeline's payloads, and
      a note with their number. */
  function AnalyzeResult(llm: LlmCalls, request: ResumeJobRequest): Option<AnalyzeResponse> {
    var ds := DictsFor(llm, request.resumeText, request.jobDescription,
                       PipelineMappings(request.resumeText, request.jobDescription));
    match ToBullets(ds)
    case None => None
    case Some(bullets) => Some(AnalyzeResponse(bullets, Some(Notes(|bullets|))))
  }

  /** `analyze(request)` */
  method Analyze(llm: LlmCalls, request: ResumeJobRequest) returns (r: Option<AnalyzeResponse>)
    ensures r == AnalyzeResult(llm, request)
  {
    var finalState := RunPipeline(llm, request.resumeText, request.jobDescription);
    var payloads := ChoosePayloads(finalState.critiquePayloads, finalState.improvedPayloads);
    var bullets := BuildBullets(payloads);
    if bullets.None? {
      return None;
    }
    return Some(AnalyzeResponse(bullets.value, Some(Notes(|bullets.value|))));
  }

  /** `analyze` answers one bullet per extracted resume bullet, each converted from its
      payload, and its note reports that number. */
  lemma AnalyzeOnePerBullet(llm: LlmCalls, request: ResumeJobRequest)
    requires AnalyzeResult(llm, request).Some?
    ensures var r, ds := AnalyzeResult(llm, request).value,
                         DictsFor(llm, request.resumeText, request.jobDescription,
                                  PipelineMappings(request.resumeText, request.jobDescription));
      |r.bullets| == |ExtractBullets(request.resumeText)| &&
      (forall i :: 0 <= i < |r.bullets| ==> Some(r.bullets[i]) == ToImprovedBullet(ds[i])) &&
      r.notes == Some(Notes(|ExtractBullets(request.resumeText)|))
  {
    PipelineOnePerBullet(request.resumeText, request.jobDescription);
  }

  /** Without an API key the payload of a stripped bullet converts to that bullet,
      unchanged, with the placeholder texts, support, no issues and no evidence. */
  lemma NoKeyBullet(env: Env, resume: string, jd: string, m: Mapping)
    requires !env.hasKey && Strip(m.bullet) == m.bullet
    ensures ToImprovedBullet(Critiqued(Calls(env), resume, jd, ImprovedDict(Calls(env), resume, jd, m))) ==
      Some(ImprovedBullet(m.bullet, m.bullet, NoKeyKeepsOriginal, PlaceholderWhy, NoKeySkipsCritique,
                          true, [], [], m.score, m.snippet))
  {
    NoKeyRecord(env, resume, jd, m);
    StrArrEmpty();
    ConvertsBack(Critiqued(Calls(env), resume, jd, ImprovedDict(Calls(env), resume, jd, m)),
                 ImprovedBullet(m.bullet, m.bullet, NoKeyKeepsOriginal, PlaceholderWhy, NoKeySkipsCritique,
                                true, [], [], m.score, m.snippet));
  }

  /** Without an API key `analyze` always answers, and every bullet comes back as it was
      extracted, with the placeholder texts, support and its mapping. */
  lemma NoKeyAnalyze(env: Env, request: ResumeJobRequest)
    requires !env.hasKey
    ensures var ms := PipelineMappings(request.resumeText, request.jobDescription);
      AnalyzeResult(Calls(env), request).Some? &&
      var r := AnalyzeResult(Calls(env), request).value;
      |r.bullets| == |ms| &&
      forall i :: 0 <= i < |ms| ==>
        r.bullets[i] == ImprovedBullet(ms[i].bullet, ms[i].bullet, NoKeyKeepsOriginal, PlaceholderWhy,
                                       NoKeySkipsCritique, true, [], [], ms[i].score, ms[i].snippet)
  {
    var resume, jd := request.resumeText, request.jobDescription;
    var ms := PipelineMappings(resume, jd);
    var ds := DictsFor(Calls(env), resume, jd, ms);
    PipelineBulletsStripped(resume, jd);
    forall i | 0 <= i < |ds|
      ensures ToImprovedBullet(ds[i]) ==
        Some(ImprovedBullet(ms[i].bullet, ms[i].bullet, NoKeyKeepsOriginal, PlaceholderWhy,
                            NoKeySkipsCritique, true, [], [], ms[i].score, ms[i].snippet))
    {
      NoKeyBullet(env, resume, jd, ms[i]);
    }
  }

  // ---------------------------------------------------------------------------
  // `improve_bullet`

  /** `improve_bullet(request)`: re-improve the bullet, then score the returned
      "improved" string (default: the current bullet) against the request's job
      description. A non-string "improved" makes scoring fail. */
  function ImproveBullet(env: Env, request: ImproveBulletRequest): (r: Option<ImproveBulletResponse>)
    ensures r.Some? ==>
      Str(r.value.improved) ==
        Get(RelevanceImprovement(env, request.currentBullet, request.originalBullet, request.resumeText,
                                 request.jobDescription, request.targetRelevance, request.currentRelevance),
            Improved, Str(request.currentBullet)) &&
      r.value.newRelevanceScore == Relevance(r.value.improved, request.jobDescription) &&
      0.0 <= r.value.newRelevanceScore <= 1.0
  {
    var result := RelevanceImprovement(env, request.currentBullet, request.originalBullet, request.resumeText,
                                       request.jobDescription, request.targetRelevance, request.currentRelevance);
    var improved := AsStr(Get(result, Improved, Str(request.currentBullet)));
    var explanation := AsStr(Get(result, Explanation, Str("")));
    var whyItWorks := AsStr(Get(result, WhyItWorks, Str("")));
    var relevanceImprovements := AsStr(Get(result, RelevanceImprovements, Str("")));
    var selfCritique := AsStr(Get(result, SelfCritique, Str("")));
    var issues := AsStrList(Get(result, Issues, Arr([])));
    var evidence := AsStrList(Get(result, EvidenceSnippets, Arr([])));
    if improved.Some? && explanation.Some? && whyItWorks.Some? && relevanceImprovements.Some? &&
       selfCritique.Some? && issues.Some? && evidence.Some?
    then Some(ImproveBulletResponse(
      improved.value, explanation.value, whyItWorks.value, relevanceImprovements.value, selfCritique.value,
      Truthy(Get(result, IsSupportedByResume, Bool(true))), issues.value, evidence.value,
      Relevance(improved.value, request.jobDescription)))
    else None
  }

  /** A relevance result whose fields hold the JSON form of a response's fields, with the
      defaults of `improve_bullet`, gives exactly that response, scored on its bullet. */
  lemma ImproveBulletConverts(env: Env, request: ImproveBulletRequest, b: ImproveBulletResponse)
    requires var d := RelevanceImprovement(env, request.currentBullet, request.originalBullet, request.resumeText,
                                           request.jobDescription, request.targetRelevance, request.currentRelevance);
      Get(d, Improved, Str(request.currentBullet)) == Str(b.improved) &&
      Get(d, Explanation, Str("")) == Str(b.explanation) && Get(d, WhyItWorks, Str("")) == Str(b.whyItWorks) &&
      Get(d, RelevanceImprovements, Str("")) == Str(b.relevanceImprovements) &&
      Get(d, SelfCritique, Str("")) == Str(b.selfCritique) &&
      Truthy(Get(d, IsSupportedByResume, Bool(true))) == b.isSupportedByResume &&
      Get(d, Issues, Arr([])) == StrArr(b.issues) && Get(d, EvidenceSnippets, Arr([])) == StrArr(b.evidenceSnippets)
    requires b.newRelevanceScore == Relevance(b.improved, request.jobDescription)
    ensures ImproveBullet(env, request) == Some(b)
  {
    AsStrListOfStrArr(b.issues);
    AsStrListOfStrArr(b.evidenceSnippets);
  }

  /** A number where `improve_bullet` expects a string makes the response fail validation. */
  lemma ImproveBulletRejectsNumbers(env: Env, request: ImproveBulletRequest)
    requires var d := RelevanceImprovement(env, request.currentBullet, request.originalBullet, request.resumeText,
                                           request.jobDescription, request.targetRelevance, request.currentRelevance);
      Get(d, Improved, Str(request.currentBullet)).Num? || Get(d, Explanation, Str("")).Num? ||
      Get(d, WhyItWorks, Str("")).Num? || Get(d, RelevanceImprovements, Str("")).Num? ||
      Get(d, SelfCritique, Str("")).Num?
    ensures ImproveBullet(env, request) == None
  {
  }

  /** Without an API key `improve_bullet` returns the stripped current bullet with the
      no-key texts and no critique, scored against the job description. */
  lemma NoKeyImproveBullet(env: Env, request: ImproveBulletRequest)
    requires !env.hasKey
    ensures ImproveBullet(env, request) ==
      Some(ImproveBulletResponse(Strip(request.currentBullet), NoKeyKeepsCurrent, NoAccessWhy, "", "", true, [], [],
                                 Relevance(Strip(request.currentBullet), request.jobDescription)))
  {
    NoKeyRelevance(env, request.currentBullet, request.originalBullet, request.resumeText,
                   request.jobDescription, request.targetRelevance, request.currentRelevance);
    var d := RelevanceNoKey(request.currentBullet);
    assert Get(d, Explanation, Str("")) == Str(NoKeyKeepsCurrent);
    assert Get(d, WhyItWorks, Str("")) == Str(NoAccessWhy);
    assert Get(d, SelfCritique, Str("")) == Str("");
    assert Get(d, IsSupportedByResume, Bool(true)) == Bool(true);
    assert Get(d, Issues, Arr([])) == Arr([]);
    assert Get(d, EvidenceSnippets, Arr([])) == Arr([]);
  }
}
