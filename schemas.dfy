/** The request and response records of the two endpoints, with their field defaults. */
module Schemas {
  import opened Values

  /** Incoming payload with raw resume text and job description text. */
  datatype ResumeJobRequest = ResumeJobRequest(resumeText: string, jobDescription: string)

  /** One rewritten resume bullet as returned to the caller. */
  datatype ImprovedBullet = ImprovedBullet(
    original: string,
    improved: string,
    explanation: string,
    whyItWorks: string,
    selfCritique: string,
    isSupportedByResume: bool,
    issues: seq<string> := [],
    evidenceSnippets: seq<string> := [],
    relevanceScore: real := 0.0,
    matchedJdSnippet: string := "")

  datatype AnalyzeResponse = AnalyzeResponse(bullets: seq<ImprovedBullet>, notes: Option<string> := None)

  /** Request to improve a single bullet further. */
  datatype ImproveBulletRequest = ImproveBulletRequest(
    currentBullet: string,
    originalBullet: string,
    resumeText: string,
    jobDescription: string,
    currentRelevance: real := 0.0,
    targetRelevance: real := 0.8)

  /** Response with a further improved bullet. */
  datatype ImproveBulletResponse = ImproveBulletResponse(
    improved: string,
    explanation: string,
    whyItWorks: string,
    relevanceImprovements: string,
    selfCritique: string,
    isSupportedByResume: bool,
    issues: seq<string> := [],
    evidenceSnippets: seq<string> := [],
    newRelevanceScore: real := 0.0)

  /** An `ImprovedBullet` built from its six required fields only. */
  lemma ImprovedBulletDefaults(original: string, improved: string, explanation: string,
                               whyItWorks: string, selfCritique: string, supported: bool)
    ensures var b := ImprovedBullet(original, improved, explanation, whyItWorks, selfCritique, supported);
      b.issues == [] && b.evidenceSnippets == [] && b.relevanceScore == 0.0 && b.matchedJdSnippet == ""
      && b.original == original && b.improved == improved && b.isSupportedByResume == supported
  {
  }

  lemma AnalyzeResponseDefaults(bullets: seq<ImprovedBullet>)
    ensures AnalyzeResponse(bullets).notes == None && AnalyzeResponse(bullets).bullets == bullets
  {
  }

  lemma ImproveBulletRequestDefaults(current: string, original: string, resume: string, jd: string)
    ensures var q := ImproveBulletRequest(current, original, resume, jd);
      q.currentRelevance == 0.0 && q.targetRelevance == 0.8 && q.currentBullet == current
  {
  }

  lemma ImproveBulletResponseDefaults(improved: string, explanation: string, whyItWorks: string,
                                      relevanceImprovements: string, selfCritique: string, supported: bool)
    ensures var r := ImproveBulletResponse(improved, explanation, whyItWorks, relevanceImprovements,
                                           selfCritique, supported);
      r.issues == [] && r.evidenceSnippets == [] && r.newRelevanceScore == 0.0 && r.improved == improved
  {
  }
}
