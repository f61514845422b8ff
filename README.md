# AI Resume Analysis: a verified model of the scoring and review core

The application reads a resume PDF, scores it for applicant-tracking systems (ATS) and asks a language model for a review. The review is grounded in a job-description index. This project models that core in Dafny and proves what the scoring, the text clean-up and the index promise.

Each module follows one source file:

- `Text` (text.dfy): the character classes and string operations the Python code leans on. These are `lower`, `strip`, `split`, `join`, `str.replace`, `splitlines` and regex word boundaries, on ASCII characters. `splitlines` is modelled as a split on `\n`.
- `Patterns` (patterns.dfy): the regular expressions the scorer and the reviewer run. Each is a matcher at one position. `re.findall` is modelled as a leftmost, non-overlapping scan over them.
- `Utils` (utils.dfy) models `app/components/utils.py`:
  - `clean_text`: control characters become spaces, runs of spaces collapse, the ends are stripped;
  - `normalize_token`: lower-case and strip, apply the twelve replacements in dict order, then delete everything outside `[a-z0-9]`;
  - `split_csv_list`.
- `ResumeParser` (resume_parser.dfy) models `app/components/resume_parser.py`:
  - `_normalize_bullets`;
  - the line-by-line clean-up in `_postprocess_lines`;
  - the three-step chain bullets → lines → `clean_text` that ends a successful extraction.
- `AtsScoring` (ats_scoring.dfy) models `app/components/ats_scoring.py`:
  - `SECTION_HINTS` and `detect_sections`;
  - `keyword_match_rate`, `quantify_bullets_ratio` and `formatting_penalty`;
  - the clamp of `readability_score`;
  - `ats_score` with its breakdown.
- `LlmReview` (llm_review.dfy) models `app/components/llm_review.py`:
  - the sentinel replies of `call_llm`;
  - `build_prompt`;
  - the skill extraction and result assembly of `review_resume`.
- `JdIndex` (jd_index.dfy) models the `JDIndex` class of `app/components/jd_index.py`. It is a Dafny `class` whose methods update `index`, `meta`, `vectorizer` and `role_match_clf` in place.
  - `build_from_csv` builds one record per CSV row, the skills vocabulary and the prompt dictionary in loops. It then trains and saves the artifacts.
  - `load` restores them.
  - `query` turns the nearest-neighbour rows into hits.
  - `match_role` takes the arg-max of the classifier.
- `Wrappers` (wrappers.dfy): `Option` and `Result`.

Where the code and its documentation disagree, the model follows the code:

- `review_resume` scores `resume_text + "\n" + jd_text`. That text is never empty, so its ATS breakdown is never the `"Empty resume text"` error, even for an empty resume (`LlmReview.ReviewResume`).
- The documentation describes a score of 0.0 for an empty resume. That holds only for `ats_score` called directly (`AtsScoring.AtsScore`).
- `normalize_token` applies `".net"` before `"asp.net"`, following dict order. So `"ASP.NET"` becomes `"aspdotnet"`, not the `"aspnet"` its docstring lists.

## Model

| member | source | states |
|---|---|---|
| Utils.CleanText | app/components/utils.py:10-20 | empty in, empty out; the result is clean (no CR, TAB or NUL, no two spaces in a row, stripped); the visible characters are kept in order |
| Utils.CleanTextKeepsNewlines | app/components/utils.py:10-20 | newlines are preserved: on a text that does not begin or end with whitespace or NUL, the result with spaces removed is the input with NUL, CR, tab and spaces removed, so every line break and every other character survives in order |
| Utils.CleanTextFixesClean | app/components/utils.py:10-20 | `clean_text(t) == t` exactly when `t` is already clean |
| Utils.CleanTextIdempotent | app/components/utils.py:10-20 | cleaning twice is cleaning once |
| Utils.NormalizeToken | app/components/utils.py:27-64 | the replacement loop computes `Normalized(token)`: lower, strip, the twelve replacements in order, then only `[a-z0-9]` kept |
| Utils.Normalized | app/components/utils.py:39-40 | the empty token gives ""; every result is made of `[a-z0-9]` only |
| Utils.NormalizedFiresAt | app/components/utils.py:42-63 | entries that cannot match pass over the token; the first entry that fires, if it yields a `[a-z0-9]` string, is the result |
| Utils.TableSkipsTo | app/components/utils.py:59-60 | a run of entries each lacking a match in `t` leaves `t` unchanged |
| Utils.NormalizeCSharp | app/components/utils.py:32-33 | "C#" normalizes to "csharp" |
| Utils.NormalizeDotNetCore | app/components/utils.py:32-35 | ".NET Core" normalizes to "dotnetcore" |
| Utils.NormalizeWebApi | app/components/utils.py:32-36 | "Web API" normalizes to "webapi" |
| Utils.NormalizeNodeJs | app/components/utils.py:32-37 | "Node.js" normalizes to "nodejs" |
| Utils.NormalizeAspNet | app/components/utils.py:32-34 | "ASP.NET" normalizes to "aspdotnet": the `".net"` entry fires before `"asp.net"`, so the docstring's "aspnet" is not what the code returns |
| Utils.NormalizedUnmarked | app/components/utils.py:44-60 | a token without `#`, `+`, `.` or space is untouched by the replacement table |
| Utils.NormalizedFixesAlnum | app/components/utils.py:27-64 | a token that is already lower-case alphanumeric comes back unchanged |
| Utils.NormalizedIdempotent | app/components/utils.py:27-64 | normalizing twice is normalizing once |
| Utils.SplitCsvList | app/components/utils.py:94-98 | "" gives []; every item is non-empty, stripped and comma-free |
| Utils.SplitCsvListKeepsText | app/components/utils.py:94-98 | the items hold, in order, exactly the non-comma, non-whitespace characters of the input |
| Utils.SplitCsvListJoin | app/components/utils.py:94-98 | splitting `", ".join(items)` gives back `items` for stripped, non-empty, comma-free items |
| ResumeParser.NormalizeBullets | app/components/resume_parser.py:6-13 | each of the six bullet characters becomes '-', everything else is kept, the length is unchanged, no bullet is left |
| ResumeParser.NormalizeBulletsIdempotent | app/components/resume_parser.py:6-13 | normalizing bullets twice is normalizing once |
| ResumeParser.PostprocessLine | app/components/resume_parser.py:24-32 | one loop pass: NULs to spaces, strip, blank lines kept as "", runs of spaces and tabs collapsed |
| ResumeParser.ProcessLineTidy | app/components/resume_parser.py:24-32 | a processed line is stripped, has no NUL and no run of two spaces or tabs |
| ResumeParser.ProcessLineEmpty | app/components/resume_parser.py:26-28 | a line comes out "" exactly when it holds only whitespace and NULs |
| ResumeParser.ProcessLineKeepsInk | app/components/resume_parser.py:24-32 | a processed line keeps the visible characters of the raw line |
| ResumeParser.PostprocessLines | app/components/resume_parser.py:16-37 | the loop, join, collapse and final strip compute `PostprocessedText(text)` |
| ResumeParser.PostprocessedTextShape | app/components/resume_parser.py:16-37 | the output never has three line breaks in a row, is stripped, every line is tidy, and the visible text of the input is kept in order |
| ResumeParser.PostprocessKeepsLines | app/components/resume_parser.py:16-37 | the non-empty lines of the output are exactly the non-empty processed input lines, in order |
| ResumeParser.PostprocessSqueezes | app/components/resume_parser.py:16-37 | the output is the processed lines with empty lines at either end dropped and each run of empty lines between two lines cut to one, joined by line breaks: successive output lines are separated by an empty line exactly when the input had a blank line between them |
| ResumeParser.Squeeze | app/components/resume_parser.py:26-27 | the squeezed lines neither begin nor end with an empty line, hold no two empty lines in a row, and every non-empty one is a processed line |
| ResumeParser.SqueezeKeepsLines | app/components/resume_parser.py:26-27 | squeezing keeps every non-empty line, in order |
| ResumeParser.CollapseNewlinesNoTriple | app/components/resume_parser.py:36 | after the `\n{3,}` substitution no three line breaks follow each other |
| ResumeParser.CollapseNewlinesKeepsLines | app/components/resume_parser.py:36 | the substitution removes only empty lines |
| ResumeParser.FinishExtraction | app/components/resume_parser.py:75-79 | the chain runs exactly when the extracted text is not blank |
| ResumeParser.FinishExtractionShape | app/components/resume_parser.py:75-79 | the chain's output is clean, holds no bullet character, and keeps the visible text of the extraction with bullets turned to '-' |
| Patterns.NumberEnd | app/components/ats_scoring.py:96 | a match of `\b\d+(\.\d+)?%?\b` starts at a digit between word boundaries |
| Patterns.BulletEnd | app/components/ats_scoring.py:97 | a bullet match starts at a line start and ends at one of the bullet marks |
| Patterns.CapsEnd | app/components/ats_scoring.py:113 | an all-caps match is three or more capitals between word boundaries |
| Patterns.SkillishEnd | app/components/ats_scoring.py:61 | a skill-like match is a run of two or more characters of its class |
| Patterns.SkillTokenEnd | app/components/llm_review.py:158 | a skill-token match is a non-empty run of its class between word boundaries |
| Patterns.FindAll | app/components/ats_scoring.py:96-98 | the reported spans are matches of the pattern, in order, and do not overlap |
| Patterns.FindAllMissesNothing | app/components/ats_scoring.py:96-98 | wherever no reported match lies, the pattern fails: the scan misses no leftmost match |
| AtsScoring.FillKeys | app/components/ats_scoring.py:35-65 | the dict filled by the section loop has exactly the section names as keys |
| AtsScoring.FillLookup | app/components/ats_scoring.py:35-65 | with distinct names, each name maps to what its own pass computed (no later pass overwrites it) |
| AtsScoring.Sections | app/components/ats_scoring.py:27-67 | the keys are the seven section names; on "" every section is False |
| AtsScoring.DetectSections | app/components/ats_scoring.py:27-67 | the loop computes `Sections(text)` |
| AtsScoring.DetectSection | app/components/ats_scoring.py:36-65 | one pass finds a section exactly when a header, a whole-word hint or the section's heuristic fires |
| AtsScoring.SearchHeaders | app/components/ats_scoring.py:39-43 | the header loop finds exactly when one of the first 60 lines, lower-cased and without trailing colons, is the name or a hint |
| AtsScoring.SearchHints | app/components/ats_scoring.py:46-50 | the hint loop finds exactly when some hint occurs as a whole word in the lower-cased text |
| AtsScoring.SectionsLookup | app/components/ats_scoring.py:27-67 | on a non-empty text each section's entry equals whether it was found |
| AtsScoring.EmptyTextAgrees | app/components/ats_scoring.py:28-29 | the early return for "" agrees with the general search: nothing is found in "" |
| AtsScoring.HeaderMarksSection | app/components/ats_scoring.py:39-43 | a header line near the top marks its section present |
| AtsScoring.SectionCount | app/components/ats_scoring.py:12-20 | the presence map has seven entries, the divisor of the coverage |
| AtsScoring.KeywordMatchRate | app/components/ats_scoring.py:74-85 | the rate lies in [0, 1]; it is 0 for an empty text or an empty skill list |
| AtsScoring.RateOf | app/components/ats_scoring.py:81-85 | the rate is 1 exactly when every distinct normalized skill matched; 0 exactly when none did |
| AtsScoring.KeywordRateFull | app/components/ats_scoring.py:74-85 | the rate is 1 exactly when every distinct normalized skill is non-empty and occurs in the normalized text |
| AtsScoring.KeywordRateZero | app/components/ats_scoring.py:74-85 | the rate is 0 exactly when the text or the skills are empty or nothing matches |
| AtsScoring.KeywordRateBlankSkill | app/components/ats_scoring.py:79-84 | a skill that normalizes to "" counts in the denominator but never matches, so the rate stays below 1 |
| AtsScoring.KeywordRateOrderFree | app/components/ats_scoring.py:79 | the rate depends only on the set of skills, not their order or repetitions |
| AtsScoring.KeywordRateHalf | app/components/ats_scoring.py:74-85 | one skill found and one distinct skill missing give exactly 0.5 |
| AtsScoring.QuantifyBulletsRatio | app/components/ats_scoring.py:92-101 | the ratio lies in [0, 1] and is 0 for "" |
| AtsScoring.QuantifySaturates | app/components/ats_scoring.py:96-101 | the ratio is 1 exactly when numbers plus bullets reach 0.6 times the sentence count |
| AtsScoring.QuantifyZero | app/components/ats_scoring.py:96-101 | the ratio is 0 exactly when there is no number and no bullet |
| AtsScoring.FormattingPenalty | app/components/ats_scoring.py:108-122 | the penalty lies in [0, 0.15] and is 0 for "" |
| AtsScoring.FormattingPenaltyZero | app/components/ats_scoring.py:112-122 | no penalty exactly when there is no all-caps word and no sentence of more than 35 words |
| AtsScoring.FormattingPenaltyCapped | app/components/ats_scoring.py:118-122 | the cap binds exactly when the caps and long-sentence ratios add up to 1 or more |
| AtsScoring.ReadabilityScore | app/components/ats_scoring.py:129-134 | the score lies in [0, 100]: 50 when the library raises, the Flesch value inside the range, 0 below it and 100 above it |
| AtsScoring.Coverage | app/components/ats_scoring.py:147 | the coverage lies in [0, 1] |
| AtsScoring.ReadNorm | app/components/ats_scoring.py:153 | the normalized readability lies in [0, 1] |
| AtsScoring.Combined | app/components/ats_scoring.py:158-165 | the weighted score less the penalty lies in [0, 1] |
| AtsScoring.AtsScore | app/components/ats_scoring.py:141-178 | the score lies in [0, 100]; "" gives 0 with the "Empty resume text" error; any other text gives a detailed breakdown |
| AtsScoring.AtsScoreAuditable | app/components/ats_scoring.py:141-178 | every reported signal lies in its range, the sections are the seven names, and the score is recomputed from the breakdown alone |
| AtsScoring.CombinedMonotone | app/components/ats_scoring.py:158-165 | more of any signal never lowers the score; more penalty never raises it |
| AtsScoring.AtsScoreKeywordMonotone | app/components/ats_scoring.py:141-178 | a higher keyword rate never lowers the ATS score |
| LlmReview.CallLlm | app/components/llm_review.py:47-111 | an unknown backend echoes "[LLM not configured]" and the first 2000 prompt characters; a missing OpenAI or Groq key gives its "[ERROR]" reply; otherwise the stripped provider reply |
| LlmReview.MissingKeyIsError | app/components/llm_review.py:53-54 | a missing key is reported in-band, as a reply starting with "[ERROR]" |
| LlmReview.NotConfiguredReply | app/components/llm_review.py:109-111 | the fallback reply is bounded and carries the start of the prompt |
| LlmReview.BuildPrompt | app/components/llm_review.py:122-145 | the prompt starts with the greeting and the target role and ends with the JSON keys line |
| LlmReview.PromptEmbeds | app/components/llm_review.py:123-145 | the first 2000 characters of the job description, the joined guidance and the first 6000 characters of the resume each occur in the prompt under their labels, in that order, at positions it returns |
| LlmReview.PromptUsesThreeBlobs | app/components/llm_review.py:123 | only the first three guidance blobs reach the prompt |
| LlmReview.PromptTruncates | app/components/llm_review.py:127-141 | only the first 2000 characters of the job description and the first 6000 of the resume reach the prompt |
| LlmReview.PromptLength | app/components/llm_review.py:122-145 | the prompt length is bounded by the role and the guidance, whatever the resume and job description lengths |
| LlmReview.FlatMapMembers | app/components/llm_review.py:157-158 | a value is in the accumulated list exactly when some blob's list holds it |
| LlmReview.AllTokensMembers | app/components/llm_review.py:156-158 | a token is accumulated exactly when some blob's findall result holds it |
| LlmReview.Dedup | app/components/llm_review.py:159 | `list(set(...))`: no duplicates, no longer than the input, exactly the same members |
| LlmReview.RequiredSkills | app/components/llm_review.py:155-159 | the required skills are exactly the skill tokens of the blobs, each once; no blobs give no skills |
| LlmReview.SkillTokenShape | app/components/llm_review.py:158 | every extracted skill is a non-empty run of letters, digits, `+`, `#`, `-` and `/` |
| LlmReview.ScoreReview | app/components/llm_review.py:155-161 | the ATS result is the score of resume, newline and job description against all extracted tokens, and it always has a detailed breakdown |
| LlmReview.RequiredSkillsScore | app/components/llm_review.py:159-161 | de-duplicating the skills does not change the ATS score |
| LlmReview.ReviewResume | app/components/llm_review.py:149-167 | the result carries the predicted role, the provider reply for the built prompt, and the ATS score of resume plus job description; its breakdown is never the empty-text error |
| JdIndex.Map | app/components/jd_index.py:60-88 | one output per input |
| JdIndex.MapAt | app/components/jd_index.py:60-88 | element i of the mapped list is the function of input i |
| JdIndex.RecordShape | app/components/jd_index.py:61-86 | a record's position is clean text and its norm is its normalized form; its skills are clean CSV items that round-trip through `", ".join`; each skill norm is the normalized skill, alphanumeric and stable under normalizing again |
| JdIndex.BlobSplitsIntoLines | app/components/jd_index.py:74-80 | a blob of newline-free fields splits back into its five tagged lines |
| JdIndex.VocabMembers | app/components/jd_index.py:58-67 | a string is in the skills vocabulary exactly when it is a normalized skill of some record |
| JdIndex.VocabSnoc | app/components/jd_index.py:66-67 | one more record adds exactly its normalized skills to the vocabulary |
| JdIndex.SortedSetSpec | app/components/jd_index.py:120 | `sorted(skills_vocab)` is strictly ascending in Python string order, holds exactly the vocabulary's members, and has one entry per member |
| JdIndex.AscendingCanonical | app/components/jd_index.py:120 | two ascending lists with the same members are equal, so the sorted vocabulary is determined by its set |
| JdIndex.BelowTotal | app/components/jd_index.py:120 | Python string order on distinct strings is total |
| JdIndex.BelowTransitive | app/components/jd_index.py:120 | Python string order is transitive |
| JdIndex.Least | app/components/jd_index.py:120 | a non-empty set has a least member under Python string order |
| JdIndex.PromptsOfRoles | app/components/jd_index.py:123-132 | the prompt dict has exactly the job positions as keys, and each maps to its own system and instruction entry |
| JdIndex.Hits | app/components/jd_index.py:161-168 | a query returns at most as many hits as search rows |
| JdIndex.Live | app/components/jd_index.py:162-164 | the positions of the rows that are not -1, increasing and complete |
| JdIndex.HitsFollowLive | app/components/jd_index.py:161-168 | hit i is the metadata record of the i-th row that is not -1, with that row's score |
| JdIndex.HitsAllLive | app/components/jd_index.py:161-168 | without -1 rows, every row gives a hit |
| JdIndex.ArgMax | app/components/jd_index.py:182 | `np.argmax`: the index of a maximum, and the first such index |
| JdIndex.Texts | app/components/jd_index.py:92 | one blob text per record, in order |
| JdIndex.Labels | app/components/jd_index.py:112 | one job position per record, in order |
| JdIndex.Embed | app/components/jd_index.py:44-47 | one embedding per text, in order |
| JdIndex.BuildRecords | app/components/jd_index.py:57-88 | the row loop builds `RecordsOf(rows)` and the vocabulary of its normalized skills |
| JdIndex.BuildRecord | app/components/jd_index.py:61-88 | one row gives `RecordOf(row)` and adds its normalized skills to the vocabulary |
| JdIndex.CollectSkills | app/components/jd_index.py:64-67 | the inner loop keeps the skills in order and adds each one's normalized form to the vocabulary |
| JdIndex.AddSkill | app/components/jd_index.py:66-67 | one pass appends the skill and adds its normalized form |
| JdIndex.BuildPrompts | app/components/jd_index.py:123-132 | the prompt loop computes `PromptsOf(records)`, later positions overwriting equal keys |
| JdIndex.AddEachIsUnion | app/components/jd_index.py:66-67 | adding `f(x)` for each x in turn is the union with the image of the list |
| JdIndex.JDIndex.constructor | app/components/jd_index.py:27-33 | the model name and encoder are kept; nothing is loaded and the metadata is empty |
| JdIndex.JDIndex.WithDefaultModel | app/components/jd_index.py:27-33 | as the constructor, with the default `embed_model` name `DefaultEmbedModel` |
| JdIndex.JDIndex.BuildFromCsv | app/components/jd_index.py:53-134 | meta is one record per row; the index embeds the record texts; the TF-IDF and logistic-regression settings are fixed; the classes are the sorted positions; the saved artifacts include the sorted vocabulary and the prompt dict |
| JdIndex.JDIndex.Install | app/components/jd_index.py:90-134 | given records and their vocabulary, installs the index, vectorizer and classifier and returns what is saved |
| JdIndex.JDIndex.Load | app/components/jd_index.py:140-147 | the stored index, vectorizer and classifier are installed; a missing metadata file gives [] |
| JdIndex.JDIndex.Query | app/components/jd_index.py:153-168 | without an index the "FAISS index not loaded" error, and only then; otherwise the hits of the search rows, at most k |
| JdIndex.JDIndex.MatchRole | app/components/jd_index.py:174-183 | without vectorizer or classifier the "Role classifier not loaded" error, and only then; otherwise the class at the arg-max of the probabilities with its probability |

## Left out

- PDF reading: PyMuPDF and pdfplumber, page counting, and the fallback between them (`extract_text_from_pdf` apart from lines 75-79/95-99). The extracted text is the input of `FinishExtraction`.
- `create_resume_pdf`, `load_json`/`save_json` file I/O, `joblib` and FAISS persistence. File writes are modelled as the returned `Artifacts`. A missing or unreadable metadata file (any error `load_json` catches) is `None` in `Load`.
- The Flesch reading ease (`textstat`), the sentence embedder, the FAISS search and the classifier's `predict_proba`. They are parameters. `Query` requires that the search returns `k` rows whose ids are -1 or valid metadata positions, which is FAISS's own contract. A mismatch between metadata and index (Python's `IndexError`) is not modelled.
- Training itself: TfidfVectorizer fitting and LogisticRegression fitting are recorded as their settings and training data. Scikit-learn's failures (fewer than two classes, no rows) are not modelled.
- `load_embedder`'s lazy loading: the encoder is a constructor parameter. The model name given to the constructor is kept in `embedModelName` but does not choose the encoder; `JDIndex()` without an argument is the `WithDefaultModel` constructor, which names `DefaultEmbedModel`.
- In `call_llm`, `from openai import OpenAI` (line 52) and `from groq import Groq` (line 65) run before the key checks. With the package missing, Python raises `ImportError` instead of returning the "[ERROR]" reply; the model assumes both packages are installed.
- `choose_backend` and the Streamlit secrets: the backend name and keys come in as `LlmConfig`. The provider calls are a `reply` parameter. The system prompt of `review_resume` is not modelled, because it reaches only the provider.
- `predict_role`: the predicted role is a parameter of `ReviewResume`.
- The module-level loading of `llm_review.py`, including `.env` loading, the warnings it prints and the pickled artifacts.
- Unicode: `lower`, `strip`, `split`, `\s`, `\d` and `\w` are modelled on ASCII. Other characters pass through unchanged and count as non-word characters.
- `splitlines` is modelled as a split on `\n`. Its other line boundaries (`\r`, `\r\n`, `\v`, `\f`, `\x1c`-`\x1e` and the Unicode separators) are not modelled.
- Floating point: scores are exact reals. `round` in `ats_score` (to 1 and 3 places) is not modelled: `AtsScore` returns unrounded values.
- `float32` embeddings and `float(score)` conversions are left as reals.
- The JSON key order of the saved prompt dict and the order of metadata keys: the prompts are a Dafny `map`.
- LlmReview.Dedup: Python's `list(set(...))` order is unspecified. The model keeps first occurrences, and its contract states only no duplicates and the same members.
- JdIndex.JDIndex.MatchRole: requires the probability row to have one entry per class, which scikit-learn guarantees.
- The `df.fillna("")` and `str(...)` of the CSV reading: rows come in as five strings.
