/** The four pipeline nodes and their fixed composition: extract the bullets, map them
    to the job description, improve each one, then critique each improvement. The
    payload dicts of the last two nodes are objects, updated in place. */
module Graph {
  import opened Text
  import opened Values
  import opened Parser
  import opened Embeddings
  import opened Llm

  /** The two language-model callers the nodes use, as uninterpreted functions;
      `Calls(env)` gives the ones the program uses. */
  datatype LlmCalls = LlmCalls(
    improve: (string, string, string) -> Dict,
    critique: (Value, Value, string, string) -> Dict)

  function Calls(env: Env): LlmCalls {
    LlmCalls((b, r, j) => Improvement(env, b, r, j), (o, i, r, j) => Critique(env, o, i, r, j))
  }

  /** `PipelineState`: the two inputs and what each node adds. */
  datatype PipelineState = PipelineState(
    resumeText: string,
    jobDescription: string,
    bullets: seq<string> := [],
    mappedBullets: seq<Mapping> := [],
    improvedPayloads: seq<Payload> := [],
    critiquePayloads: seq<Payload> := [])

  // ---------------------------------------------------------------------------
  // Node 1 and node 2: copies of the state with one field replaced

  /** `extract_bullets_node`: only `bullets` changes, to the stripped bullets of the resume. */
  function ExtractBulletsNode(s: PipelineState): (t: PipelineState)
    ensures t == s.(bullets := t.bullets)
    ensures t.bullets == ExtractBullets(s.resumeText)
    ensures forall k :: 0 <= k < |t.bullets| ==> Strip(t.bullets[k]) == t.bullets[k] && |t.bullets[k]| >= 3
  {
    BulletsWellFormed(SplitLines(s.resumeText));
    s.(bullets := ExtractBullets(s.resumeText))
  }

  /** `map_to_jd_node`: nothing changes without bullets; otherwise `mappedBullets` gets
      one mapping per bullet (`top_k = len(bullets)`), sorted by non-increasing score. */
  function MapToJdNode(s: PipelineState): (t: PipelineState)
    ensures s.bullets == [] ==> t == s
    ensures t == s.(mappedBullets := t.mappedBullets)
    ensures s.bullets != [] ==>
      t.mappedBullets == MapBullets(s.bullets, s.jobDescription, |s.bullets|) &&
      |t.mappedBullets| == |s.bullets| &&
      multiset(BulletsOf(t.mappedBullets)) == multiset(s.bullets) &&
      NonIncreasing(t.mappedBullets)
  {
    if s.bullets == [] then s
    else
      MapAllBullets(s.bullets, s.jobDescription, |s.bullets|);
      s.(mappedBullets := MapBullets(s.bullets, s.jobDescription, |s.bullets|))
  }

  // ---------------------------------------------------------------------------
  // Node 3: `improve_bullets_node`

  const SectionMarker: string := "\n\n[Most Relevant Section]: "

  /** The job description handed to the improver: the description, the marker, the snippet. */
  function EnhancedJd(jd: string, snippet: string): (r: string)
    ensures |r| == |jd| + |SectionMarker| + |snippet|
    ensures r[..|jd|] == jd && r[|jd|..|jd| + |SectionMarker|] == SectionMarker && r[|jd| + |SectionMarker|..] == snippet
  {
    jd + SectionMarker + snippet
  }

  const StampKeys: set<Key> := {Original, RelevanceScore, MatchedJdSnippet}

  /** A record with the mapping triple stamped over whatever it held for those three keys. */
  function Stamped(d: Dict, m: Mapping): (r: Dict)
    ensures r.Keys == d.Keys + StampKeys
    ensures r[Original] == Str(m.bullet) && r[RelevanceScore] == Num(m.score) && r[MatchedJdSnippet] == Str(m.snippet)
    ensures forall k :: k in d && k !in StampKeys ==> r[k] == d[k]
  {
    d[Original := Str(m.bullet)][RelevanceScore := Num(m.score)][MatchedJdSnippet := Str(m.snippet)]
  }

  /** The improver's record for one mapping, stamped with the mapping. */
  function ImprovedDict(llm: LlmCalls, resume: string, jd: string, m: Mapping): Dict {
    Stamped(llm.improve(m.bullet, resume, EnhancedJd(jd, m.snippet)), m)
  }

  /** `improve_bullets_node`: one fresh payload per mapping, in mapping order. */
  method ImproveBulletsNode(llm: LlmCalls, s: PipelineState) returns (t: PipelineState)
    ensures t == s.(improvedPayloads := t.improvedPayloads)
    ensures |t.improvedPayloads| == |s.mappedBullets|
    ensures forall j :: 0 <= j < |t.improvedPayloads| ==> fresh(t.improvedPayloads[j])
    ensures forall j :: 0 <= j < |t.improvedPayloads| ==>
      t.improvedPayloads[j].entries == ImprovedDict(llm, s.resumeText, s.jobDescription, s.mappedBullets[j])
    ensures forall j, k :: 0 <= j < k < |t.improvedPayloads| ==> t.improvedPayloads[j] != t.improvedPayloads[k]
  {
    var ms := s.mappedBullets;
    var payloads: seq<Payload> := [];
    for i := 0 to |ms|
      invariant |payloads| == i
      invariant forall j :: 0 <= j < i ==> fresh(payloads[j])
      invariant forall j :: 0 <= j < i ==> payloads[j].entries == ImprovedDict(llm, s.resumeText, s.jobDescription, ms[j])
      invariant forall j, k :: 0 <= j < k < i ==> payloads[j] != payloads[k]
    {
      var payload := ImprovePayload(llm, s.resumeText, s.jobDescription, ms[i]);
      payloads := payloads + [payload];
    }
    t := s.(improvedPayloads := payloads);
  }

  /** The body of the loop in `improve_bullets_node`: improve one bullet and stamp
      the mapping onto the fresh payload. */
  method ImprovePayload(llm: LlmCalls, resume: string, jd: string, m: Mapping) returns (payload: Payload)
    ensures fresh(payload)
    ensures payload.entries == ImprovedDict(llm, resume, jd, m)
  {
    var enhanced := jd + SectionMarker + m.snippet;
    payload := new Payload(llm.improve(m.bullet, resume, enhanced));
    payload.Set(Original, Str(m.bullet));
    payload.Set(RelevanceScore, Num(m.score));
    payload.Set(MatchedJdSnippet, Str(m.snippet));
  }

  // ---------------------------------------------------------------------------
  // Node 4: `self_critique_node`

  /** The critique of a payload: of its "original" value and its "improved" value
      (default ""), against the job description without the snippet. */
  function CritiqueOf(llm: LlmCalls, resume: string, jd: string, d: Dict): Dict
    requires Original in d
  {
    llm.critique(d[Original], Get(d, Improved, Str("")), resume, jd)
  }

  /** A payload after the critique is merged in: the four critique keys take the
      critique's values (defaults "", True, [], []), every other key is kept. */
  function Critiqued(llm: LlmCalls, resume: string, jd: string, d: Dict): (r: Dict)
    requires Original in d
    ensures r.Keys == d.Keys + CritiqueKeys
    ensures forall k :: k in d && k !in CritiqueKeys ==> r[k] == d[k]
    ensures forall k :: k in CritiqueKeys && k in CritiqueOf(llm, resume, jd, d) ==> r[k] == CritiqueOf(llm, resume, jd, d)[k]
    ensures SelfCritique !in CritiqueOf(llm, resume, jd, d) ==> r[SelfCritique] == Str("")
    ensures IsSupportedByResume !in CritiqueOf(llm, resume, jd, d) ==> r[IsSupportedByResume] == Bool(true)
    ensures Issues !in CritiqueOf(llm, resume, jd, d) ==> r[Issues] == Arr([])
    ensures EvidenceSnippets !in CritiqueOf(llm, resume, jd, d) ==> r[EvidenceSnippets] == Arr([])
  {
    d + CritiqueFields(CritiqueOf(llm, resume, jd, d))
  }

  /** `self_critique_node`: every improved payload is critiqued and updated in place,
      and `critiquePayloads` holds the same objects. The improve node builds one
      distinct payload per mapping, so each payload is critiqued once. */
  method SelfCritiqueNode(llm: LlmCalls, s: PipelineState) returns (t: PipelineState)
    requires forall p :: p in s.improvedPayloads ==> Original in p.entries
    requires forall j, k :: 0 <= j < k < |s.improvedPayloads| ==> s.improvedPayloads[j] != s.improvedPayloads[k]
    modifies set p | p in s.improvedPayloads
    ensures t == s.(critiquePayloads := s.improvedPayloads)
    ensures forall p :: p in s.improvedPayloads ==>
      Original in old(p.entries) && p.entries == Critiqued(llm, s.resumeText, s.jobDescription, old(p.entries))
  {
    var ps := s.improvedPayloads;
    var critiquePayloads: seq<Payload> := [];
    for i := 0 to |ps|
      invariant critiquePayloads == ps[..i]
      invariant forall p :: p in ps ==> Original in old(p.entries)
      invariant forall p :: p in ps && p in ps[..i] ==>
        p.entries == Critiqued(llm, s.resumeText, s.jobDescription, old(p.entries))
      invariant forall p :: p in ps && p !in ps[..i] ==> p.entries == old(p.entries)
    {
      var payload := ps[i];
      assert payload !in ps[..i];
      CritiquePayload(llm, s.resumeText, s.jobDescription, payload);
      assert ps[..i + 1] == ps[..i] + [payload];
      critiquePayloads := critiquePayloads + [payload];
    }
    assert ps[..|ps|] == ps;
    t := s.(critiquePayloads := critiquePayloads);
  }

  /** The body of the loop in `self_critique_node`: critique one payload and merge
      the critique into it. */
  method CritiquePayload(llm: LlmCalls, resume: string, jd: string, payload: Payload)
    requires Original in payload.entries
    modifies payload
    ensures payload.entries == Critiqued(llm, resume, jd, old(payload.entries))
  {
    var critique := llm.critique(payload.entries[Original], Get(payload.entries, Improved, Str("")), resume, jd);
    payload.Update(CritiqueFields(critique));
  }

  // ---------------------------------------------------------------------------
  // The pipeline

  /** The payloads that nodes 3 and 4 leave for a list of mappings. */
  function DictsFor(llm: LlmCalls, resume: string, jd: string, ms: seq<Mapping>): (ds: seq<Dict>)
    ensures |ds| == |ms|
    ensures forall i :: 0 <= i < |ms| ==>
      ds[i] == Critiqued(llm, resume, jd, ImprovedDict(llm, resume, jd, ms[i]))
  {
    seq(|ms|, i requires 0 <= i < |ms| => Critiqued(llm, resume, jd, ImprovedDict(llm, resume, jd, ms[i])))
  }

  /** The mappings the pipeline improves. */
  function PipelineMappings(resume: string, jd: string): seq<Mapping> {
    MapToJdNode(ExtractBulletsNode(PipelineState(resume, jd))).mappedBullets
  }

  /** The compiled graph run on an initial state: extract, map, improve, critique. */
  method RunPipeline(llm: LlmCalls, resume: string, jd: string) returns (t: PipelineState)
    ensures t.resumeText == resume && t.jobDescription == jd
    ensures t.bullets == ExtractBullets(resume)
    ensures t.mappedBullets == PipelineMappings(resume, jd)
    ensures t.critiquePayloads == t.improvedPayloads
    ensures forall p :: p in t.critiquePayloads ==> fresh(p)
    ensures Contents(t.critiquePayloads) == DictsFor(llm, resume, jd, t.mappedBullets)
  {
    var s := PipelineState(resume, jd);
    s := ExtractBulletsNode(s);
    s := MapToJdNode(s);
    s := ImproveBulletsNode(llm, s);
    t := SelfCritiqueNode(llm, s);
  }

  /** Each final payload carries its mapping's bullet, score and snippet, and the four
      critique keys, whatever the model returned. */
  lemma DictsStamped(llm: LlmCalls, resume: string, jd: string, ms: seq<Mapping>)
    ensures var ds := DictsFor(llm, resume, jd, ms);
      forall i :: 0 <= i < |ds| ==>
        ds[i][Original] == Str(ms[i].bullet) && ds[i][RelevanceScore] == Num(ms[i].score) &&
        ds[i][MatchedJdSnippet] == Str(ms[i].snippet) && CritiqueKeys <= ds[i].Keys
  {
  }

  /** The pipeline yields one payload per extracted bullet, each bullet once (in score
      order, not line order), with scores in [0, 1]. */
  lemma PipelineOnePerBullet(resume: string, jd: string)
    ensures var ms, bullets := PipelineMappings(resume, jd), ExtractBullets(resume);
      |ms| == |bullets| && multiset(BulletsOf(ms)) == multiset(bullets) && NonIncreasing(ms) &&
      forall i :: 0 <= i < |ms| ==> 0.0 <= ms[i].score <= 1.0
  {
    var bullets := ExtractBullets(resume);
    var ms := PipelineMappings(resume, jd);
    MapScoresBounded(bullets, jd, |bullets|);
    forall i | 0 <= i < |ms| ensures 0.0 <= ms[i].score <= 1.0 {
      assert ms[i] in ms;
    }
  }

  /** Every bullet the pipeline improves is a stripped line of the resume. */
  lemma PipelineBulletsStripped(resume: string, jd: string)
    ensures var ms := PipelineMappings(resume, jd);
      forall i :: 0 <= i < |ms| ==> Strip(ms[i].bullet) == ms[i].bullet && |ms[i].bullet| >= 3
  {
    var bullets := ExtractBullets(resume);
    var ms := PipelineMappings(resume, jd);
    forall i | 0 <= i < |ms| ensures Strip(ms[i].bullet) == ms[i].bullet && |ms[i].bullet| >= 3 {
      assert ms[i].bullet in multiset(BulletsOf(ms)) by {
        assert BulletsOf(ms)[i] == ms[i].bullet;
      }
      var k :| 0 <= k < |bullets| && bullets[k] == ms[i].bullet;
    }
  }

  /** Without an API key every final payload is the improver's fallback for its
      bullet, stamped with the mapping and merged with the skipped critique. */
  lemma NoKeyRecord(env: Env, resume: string, jd: string, m: Mapping)
    requires !env.hasKey
    ensures var d := Critiqued(Calls(env), resume, jd, ImprovedDict(Calls(env), resume, jd, m));
      d[Original] == Str(m.bullet) && d[Improved] == Str(Strip(m.bullet)) &&
      d[Explanation] == Str(NoKeyKeepsOriginal) && d[WhyItWorks] == Str(PlaceholderWhy) &&
      d[SelfCritique] == Str(NoKeySkipsCritique) && d[IsSupportedByResume] == Bool(true) &&
      d[Issues] == Arr([]) && d[EvidenceSnippets] == Arr([]) &&
      d[RelevanceScore] == Num(m.score) && d[MatchedJdSnippet] == Str(m.snippet)
  {
    var f := ImproveFallback(m.bullet, NoKeyKeepsOriginal, PlaceholderWhy, NoModelCritique, []);
    var d := ImprovedDict(Calls(env), resume, jd, m);
    NoKeyFallbacks(env, m.bullet, Str(m.bullet), Str(Strip(m.bullet)), resume, EnhancedJd(jd, m.snippet));
    assert d == Stamped(f, m);
    NoKeyFallbacks(env, m.bullet, Str(m.bullet), Str(Strip(m.bullet)), resume, jd);
    assert CritiqueOf(Calls(env), resume, jd, d) == CritiqueFallback(NoKeySkipsCritique, []);
    StrArrEmpty();
  }

  /** Without an API key the improver returns a stripped bullet as it is: the record's
      "improved" equals the "original" stamped onto it, and the record is a fallback. */
  lemma NoKeyKeepsStrippedBullet(env: Env, resume: string, jd: string, m: Mapping)
    requires !env.hasKey && Strip(m.bullet) == m.bullet
    ensures var d := Critiqued(Calls(env), resume, jd, ImprovedDict(Calls(env), resume, jd, m));
      Improved in d && d[Improved] == d[Original] && IsFallback(d)
  {
    NoKeyRecord(env, resume, jd, m);
  }

  /** Without an API key, for mappings of stripped bullets, every payload has "improved"
      equal to "original", claims support and quotes no evidence. */
  lemma NoKeyDictsKeepBullets(env: Env, resume: string, jd: string, ms: seq<Mapping>)
    requires !env.hasKey
    requires forall i :: 0 <= i < |ms| ==> Strip(ms[i].bullet) == ms[i].bullet
    ensures var ds := DictsFor(Calls(env), resume, jd, ms);
      forall i :: 0 <= i < |ds| ==> Improved in ds[i] && ds[i][Improved] == ds[i][Original] && IsFallback(ds[i])
  {
    forall i | 0 <= i < |ms|
      ensures var d := Critiqued(Calls(env), resume, jd, ImprovedDict(Calls(env), resume, jd, ms[i]));
        Improved in d && d[Improved] == d[Original] && IsFallback(d)
    {
      NoKeyKeepsStrippedBullet(env, resume, jd, ms[i]);
    }
  }

  /** Without an API key every payload of the pipeline has "improved" equal to
      "original", claims support and quotes no evidence. */
  lemma NoKeyPipelineKeepsBullets(env: Env, resume: string, jd: string)
    requires !env.hasKey
    ensures var ds := DictsFor(Calls(env), resume, jd, PipelineMappings(resume, jd));
      forall i :: 0 <= i < |ds| ==> Improved in ds[i] && ds[i][Improved] == ds[i][Original] && IsFallback(ds[i])
  {
    PipelineBulletsStripped(resume, jd);
    NoKeyDictsKeepBullets(env, resume, jd, PipelineMappings(resume, jd));
  }
}
