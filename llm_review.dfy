/**
 * The review orchestrator: the prompt sent to the language model, the sentinel
 * replies when no model can be called, the required skills pulled out of the
 * guidance blobs, and the result that bundles role, ATS score and raw feedback.
 */
module LlmReview {
  import opened Wrappers
  import opened Text
  import opened Patterns
  import opened AtsScoring

  // ---------------------------------------------------------------------------
  // call_llm
  // ---------------------------------------------------------------------------

  /** What `call_llm` reads from its environment: the lower-cased backend name and the
      two API keys it checks (absent, or possibly empty). */
  datatype LlmConfig = LlmConfig(backend: string, openAiKey: Option<string>, groqKey: Option<string>)

  /** A key Python treats as false: `None` or `""`. */
  predicate Unset(key: Option<string>) {
    key.None? || key.value == ""
  }

  const ErrorTag: string := "[ERROR]"
  const OpenAiKeyMissing: string := ErrorTag + " OPENAI_API_KEY not set. Cannot call LLM."
  const GroqKeyMissing: string := ErrorTag + " GROQ_API_KEY not set. Cannot call Groq LLM."
  const NotConfigured: string := "[LLM not configured]\n"

  predicate KnownBackend(backend: string) {
    backend == "openai" || backend == "groq" || backend == "anthropic" || backend == "mistral"
  }

  /** `call_llm(prompt)`: `reply` is what the provider's API returned, which only the
      four named backends ask for. */
  function CallLlm(config: LlmConfig, prompt: string, reply: string): (out: string)
    ensures !KnownBackend(config.backend) ==> out == NotConfigured + Take(prompt, 2000)
    ensures config.backend == "openai" && Unset(config.openAiKey) ==> out == OpenAiKeyMissing
    ensures config.backend == "groq" && Unset(config.groqKey) ==> out == GroqKeyMissing
    ensures (KnownBackend(config.backend)
             && !(config.backend == "openai" && Unset(config.openAiKey))
             && !(config.backend == "groq" && Unset(config.groqKey))) ==> out == Strip(reply)
  {
    if config.backend == "openai" then
      if Unset(config.openAiKey) then OpenAiKeyMissing else Strip(reply)
    else if config.backend == "groq" then
      if Unset(config.groqKey) then GroqKeyMissing else Strip(reply)
    else if config.backend == "anthropic" || config.backend == "mistral" then Strip(reply)
    else NotConfigured + Take(prompt, 2000)
  }

  /** A missing key is reported in-band, as a reply starting with "[ERROR]". */
  lemma MissingKeyIsError(config: LlmConfig, prompt: string, reply: string)
    requires (config.backend == "openai" && Unset(config.openAiKey))
          || (config.backend == "groq" && Unset(config.groqKey))
    ensures ErrorTag <= CallLlm(config, prompt, reply)
  {
  }

  /** The unconfigured reply is bounded and carries the prompt's start. */
  lemma NotConfiguredReply(config: LlmConfig, prompt: string, reply: string)
    requires !KnownBackend(config.backend)
    ensures var out := CallLlm(config, prompt, reply);
      |out| <= |NotConfigured| + 2000 && NotConfigured <= out
      && out[|NotConfigured|..] <= prompt
  {
    var out := CallLlm(config, prompt, reply);
    assert out[|NotConfigured|..] == Take(prompt, 2000);
  }

  // ---------------------------------------------------------------------------
  // build_prompt
  // ---------------------------------------------------------------------------

  const Greeting: string := "You are an expert resume reviewer.\n"
  const JdLabel: string := "Optional Job Description (JD):\n"
  const GuidanceLabel: string := "Domain Guidance (from internal knowledge base):\n"
  const TaskItems: string :=
    "TASKS:\n"
    + "1) Give section-wise feedback (Summary, Experience, Education, Skills, Projects, Certifications).\n"
    + "2) List *missing* skills/keywords for this role (high priority).\n"
    + "3) Rewrite 3-5 bullets to be quantifiable and tailored to the JD. Use STAR actions when possible.\n"
    + "4) Flag vague or redundant language and suggest concise alternatives.\n"
    + "5) Suggest formatting/clarity improvements.\n"
    + "6) Provide a brief 3-line profile summary for the candidate tailored to the role.\n"
    + "\n"
  const ResumeLabel: string := "Resume Text:\n"
  const JsonKeys: string :=
    "Return JSON with keys: feedback_by_section, missing_keywords, bullet_rewrites, "
    + "language_fixes, formatting_suggestions, tailored_summary.\n"

  /** The second line of the prompt. */
  function RoleLine(jobRole: string): string {
    "Target Role: " + jobRole + "\n"
  }

  /** `"\n\n".join(guidance_blobs[:3])`. */
  function Guidance(blobs: seq<string>): string {
    Join(Take(blobs, 3), "\n\n")
  }

  /** `build_prompt(resume_text, job_role, guidance_blobs, jd_text)`: the greeting and
      the role line, the job description and the guidance under their labels, the task
      list, the resume under its label, and the closing line naming the JSON keys. */
  function BuildPrompt(resumeText: string, jobRole: string, blobs: seq<string>, jdText: string): (prompt: string)
    ensures Greeting + RoleLine(jobRole) <= prompt
    ensures EndsWith(prompt, JsonKeys)
  {
    Template(Greeting + RoleLine(jobRole), JdLabel, Take(jdText, 2000), GuidanceLabel, Guidance(blobs),
      TaskItems, ResumeLabel, Take(resumeText, 6000), JsonKeys)
  }

  predicate EndsWith(s: string, t: string) {
    |s| >= |t| && s[|s| - |t|..] == t
  }

  /** The prompt's layout, with its pieces as parameters. */
  function Template(head: string, jdLabel: string, jd: string, guideLabel: string, guide: string,
                    tasks: string, resumeLabel: string, resume: string, tail: string): (s: string)
    ensures head <= s && EndsWith(s, tail)
  {
    var s := head + jdLabel + jd + "\n\n" + guideLabel + guide + "\n\n" + tasks + resumeLabel + resume + "\n\n" + tail;
    assert s[..|head|] == head;
    s
  }

  /** The three excerpts appear in the prompt in the template's order, and the lemma
      returns where each starts: the job description right after the role line, the
      guidance right after it, and the resume, under its label, right before the
      closing "\n\n" and the JSON keys line. */
  lemma PromptEmbeds(resumeText: string, jobRole: string, blobs: seq<string>, jdText: string)
    returns (i: nat, j: nat, k: nat)
    ensures i == |Greeting + RoleLine(jobRole)|
    ensures OccursAt(JdLabel + Take(jdText, 2000) + "\n\n", BuildPrompt(resumeText, jobRole, blobs, jdText), i)
    ensures j == i + |JdLabel + Take(jdText, 2000) + "\n\n"|
    ensures OccursAt(GuidanceLabel + Guidance(blobs) + "\n\n", BuildPrompt(resumeText, jobRole, blobs, jdText), j)
    ensures j + |GuidanceLabel + Guidance(blobs) + "\n\n"| < k
    ensures OccursAt(ResumeLabel + Take(resumeText, 6000), BuildPrompt(resumeText, jobRole, blobs, jdText), k)
    ensures k + |ResumeLabel + Take(resumeText, 6000)| + 2 + |JsonKeys| == |BuildPrompt(resumeText, jobRole, blobs, jdText)|
  {
    assert |TaskItems| > 0;
    i, j, k := TemplateLayout(Greeting + RoleLine(jobRole), JdLabel, Take(jdText, 2000), GuidanceLabel, Guidance(blobs),
      TaskItems, ResumeLabel, Take(resumeText, 6000), JsonKeys);
  }

  /** Where the labelled excerpts of a `Template` start. */
  lemma TemplateLayout(h: string, jl: string, jd: string, gl: string, g: string,
                       ti: string, rl: string, r: string, keys: string)
    returns (i: nat, j: nat, k: nat)
    requires |ti| > 0
    ensures i == |h|
    ensures OccursAt(jl + jd + "\n\n", Template(h, jl, jd, gl, g, ti, rl, r, keys), i)
    ensures j == i + |jl + jd + "\n\n"|
    ensures OccursAt(gl + g + "\n\n", Template(h, jl, jd, gl, g, ti, rl, r, keys), j)
    ensures j + |gl + g + "\n\n"| < k
    ensures OccursAt(rl + r, Template(h, jl, jd, gl, g, ti, rl, r, keys), k)
    ensures k + |rl + r| + 2 + |keys| == |Template(h, jl, jd, gl, g, ti, rl, r, keys)|
  {
    var s := Template(h, jl, jd, gl, g, ti, rl, r, keys);
    var a, b, c := jl + jd + "\n\n", gl + g + "\n\n", rl + r;
    assert s == h + a + b + ti + c + ("\n\n" + keys);
    i, j, k := |h|, |h| + |a|, |h| + |a| + |b| + |ti|;
    assert s[i..i + |a|] == a;
    assert s[j..j + |b|] == b;
    assert s[k..k + |c|] == c;
  }

  /** Only the first three guidance blobs reach the prompt. */
  lemma PromptUsesThreeBlobs(resumeText: string, jobRole: string, blobs: seq<string>, jdText: string)
    ensures BuildPrompt(resumeText, jobRole, blobs, jdText) == BuildPrompt(resumeText, jobRole, Take(blobs, 3), jdText)
  {
    assert Take(Take(blobs, 3), 3) == Take(blobs, 3);
  }

  /** Only the first 2000 characters of the job description and the first 6000 of
      the resume reach the prompt. */
  lemma PromptTruncates(resumeText: string, jobRole: string, blobs: seq<string>, jdText: string)
    ensures BuildPrompt(resumeText, jobRole, blobs, jdText)
         == BuildPrompt(Take(resumeText, 6000), jobRole, blobs, Take(jdText, 2000))
  {
    assert Take(Take(resumeText, 6000), 6000) == Take(resumeText, 6000);
    assert Take(Take(jdText, 2000), 2000) == Take(jdText, 2000);
  }

  /** The prompt grows with the role and the guidance, not with the resume or the
      job description beyond their cut-offs. */
  lemma PromptLength(resumeText: string, jobRole: string, blobs: seq<string>, jdText: string)
    ensures |BuildPrompt(resumeText, jobRole, blobs, jdText)|
      <= |Greeting| + |RoleLine(jobRole)| + |JdLabel| + 2000 + |GuidanceLabel| + |Guidance(blobs)|
         + |TaskItems| + |ResumeLabel| + 6000 + |JsonKeys| + 6
  {
  }

  // ---------------------------------------------------------------------------
  // required skills
  // ---------------------------------------------------------------------------

  /** The tokens of all blobs in order: what the `+=` loop accumulates. */
  function AllTokens(blobs: seq<string>): (tokens: seq<string>) {
    FlatMap(BlobTokens, blobs)
  }

  /** `re.findall(r"\b[A-Za-z0-9\+\#\-/]+\b", blob)`. */
  function BlobTokens(blob: string): seq<string> {
    Matches(SkillToken, blob)
  }

  /** `f(x)` for each `x` of `xs`, concatenated in order. */
  function FlatMap<A, B>(f: A -> seq<B>, xs: seq<A>): seq<B>
    decreases |xs|
  {
    if |xs| == 0 then [] else FlatMap(f, xs[..|xs| - 1]) + f(xs[|xs| - 1])
  }

  /** A token occurs in some blob's findall result. */
  predicate TokenOf(blobs: seq<string>, t: string) {
    exists i :: 0 <= i < |blobs| && t in BlobTokens(blobs[i])
  }

  lemma {:induction false} FlatMapMembers<A, B>(f: A -> seq<B>, xs: seq<A>, t: B)
    ensures t in FlatMap(f, xs) <==> exists i :: 0 <= i < |xs| && t in f(xs[i])
    decreases |xs|
  {
    if |xs| > 0 {
      var n := |xs| - 1;
      var front := xs[..n];
      FlatMapMembers(f, front, t);
      if exists i :: 0 <= i < |xs| && t in f(xs[i]) {
        var i :| 0 <= i < |xs| && t in f(xs[i]);
        if i < n {
          assert front[i] == xs[i];
        }
      }
      if exists i :: 0 <= i < n && t in f(front[i]) {
        var i :| 0 <= i < n && t in f(front[i]);
        assert front[i] == xs[i];
      }
    }
  }

  lemma AllTokensMembers(blobs: seq<string>, t: string)
    ensures t in AllTokens(blobs) <==> TokenOf(blobs, t)
  {
    FlatMapMembers(BlobTokens, blobs, t);
  }

  predicate NoDup<T(==)>(s: seq<T>) {
    forall i, j :: 0 <= i < j < |s| ==> s[i] != s[j]
  }

  /** `list(set(tokens))`: each token once. Python leaves the order unspecified; this
      keeps first occurrences, and nothing below depends on the order. */
  method Dedup(tokens: seq<string>) returns (unique: seq<string>)
    ensures NoDup(unique) && |unique| <= |tokens|
    ensures forall t :: t in unique <==> t in tokens
  {
    unique := [];
    for i := 0 to |tokens|
      invariant NoDup(unique) && |unique| <= i
      invariant forall t :: t in unique <==> t in tokens[..i]
    {
      assert tokens[..i + 1] == tokens[..i] + [tokens[i]];
      if tokens[i] !in unique {
        unique := unique + [tokens[i]];
      }
    }
    assert tokens[..|tokens|] == tokens;
  }

  /** The skill extraction of `review_resume`: every `\b[A-Za-z0-9\+\#\-/]+\b` match in
      every blob, without duplicates. */
  method RequiredSkills(blobs: seq<string>) returns (skills: seq<string>)
    ensures NoDup(skills)
    ensures forall t :: t in skills <==> TokenOf(blobs, t)
    ensures blobs == [] ==> skills == []
  {
    var acc: seq<string> := [];
    for i := 0 to |blobs|
      invariant acc == AllTokens(blobs[..i])
    {
      assert blobs[..i + 1][..i] == blobs[..i];
      acc := acc + BlobTokens(blobs[i]);
    }
    assert blobs[..|blobs|] == blobs;
    skills := Dedup(acc);
    forall t ensures t in skills <==> TokenOf(blobs, t) {
      AllTokensMembers(blobs, t);
    }
  }

  /** Every found token is a non-empty run of the class between word boundaries. */
  lemma SkillTokenShape(blob: string, t: string)
    requires t in Matches(SkillToken, blob)
    ensures t != "" && forall c :: c in t ==> InClass(c, SkillChars)
  {
    var ms := Matches(SkillToken, blob);
    var spans := FindAll(SkillToken, blob);
    var k :| 0 <= k < |ms| && ms[k] == t;
    var a, e := spans[k].0, spans[k].1;
    assert t == blob[a..e];
    assert MatchAt(SkillToken, blob, a) == Some(e);
    SkillTokenRun(blob, a, e);
  }

  lemma SkillTokenRun(blob: string, a: nat, e: nat)
    requires a <= |blob| && SkillTokenEnd(blob, a) == Some(e)
    ensures a < e <= |blob| && forall c :: c in blob[a..e] ==> InClass(c, SkillChars)
  {
    forall c | c in blob[a..e] ensures InClass(c, SkillChars) {
      var j :| 0 <= j < e - a && blob[a..e][j] == c;
      assert blob[a + j] == c;
    }
  }

  // ---------------------------------------------------------------------------
  // review_resume
  // ---------------------------------------------------------------------------

  /** The dict `review_resume` returns. */
  datatype ReviewResult = ReviewResult(predictedRole: string, ats: AtsResult, llmFeedbackRaw: string)

  /** `review_resume(resume_text, guidance_blobs, jd_text)`. The role the classifier
      predicts, the provider's reply and the Flesch score of the scored text come in
      as parameters. */
  method ReviewResume(resumeText: string, blobs: seq<string>, jdText: string,
                      predictedRole: string, config: LlmConfig, reply: string, flesch: Option<real>)
    returns (result: ReviewResult)
    ensures result.predictedRole == predictedRole
    ensures result.llmFeedbackRaw == CallLlm(config, BuildPrompt(resumeText, predictedRole, blobs, jdText), reply)
    ensures result.ats == AtsScore(resumeText + "\n" + jdText, AllTokens(blobs), flesch)
    ensures result.ats.breakdown.Detail?
  {
    var prompt := BuildPrompt(resumeText, predictedRole, blobs, jdText);
    var llmJson := CallLlm(config, prompt, reply);
    var ats := ScoreReview(resumeText, blobs, jdText, flesch);
    result := ReviewResult(predictedRole, ats, llmJson);
  }

  /** The scoring half of `review_resume`: extract the required skills from the
      blobs, then score the resume followed by the job description. */
  method ScoreReview(resumeText: string, blobs: seq<string>, jdText: string, flesch: Option<real>)
    returns (ats: AtsResult)
    ensures ats == AtsScore(resumeText + "\n" + jdText, AllTokens(blobs), flesch)
    ensures ats.breakdown.Detail?
  {
    var skills := RequiredSkills(blobs);
    var text := resumeText + "\n" + jdText;
    RequiredSkillsScore(text, skills, blobs, flesch);
    ats := AtsScore(text, skills, flesch);
  }

  /** Scoring the de-duplicated skills is scoring every token found. */
  lemma RequiredSkillsScore(text: string, skills: seq<string>, blobs: seq<string>, flesch: Option<real>)
    requires forall t :: t in skills <==> TokenOf(blobs, t)
    ensures AtsScore(text, skills, flesch) == AtsScore(text, AllTokens(blobs), flesch)
  {
    forall t ensures t in skills <==> t in AllTokens(blobs) {
      AllTokensMembers(blobs, t);
    }
    AtsScoreSkillSet(text, skills, AllTokens(blobs), flesch);
  }

  /** The ATS score sees the required skills only as a set. */
  lemma AtsScoreSkillSet(text: string, a: seq<string>, b: seq<string>, flesch: Option<real>)
    requires forall s :: s in a <==> s in b
    ensures AtsScore(text, a, flesch) == AtsScore(text, b, flesch)
  {
    KeywordRateOrderFree(text, a, b);
  }
}
