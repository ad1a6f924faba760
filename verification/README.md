# Resume analyzer: skill matching, scoring and the analysis gate

This project models the matching core of a small resume analyzer (`app.py`).
The analyzer takes a resume and a job description and lowercases each text.
It tokenizes the lowercased text and keeps the tokens that belong to a fixed
vocabulary of fifteen skills. The result is one skill set per document. The
analyzer then intersects the two sets and scores the resume. The score is the
percentage of the job's skills that the resume also names. A report shows:

- the score;
- the matched skills;
- the missing skills (job skills less resume skills);
- a three-bar chart of the set sizes.

The report appears only when both files are uploaded and both loaded texts are
non-empty. Otherwise the analyzer shows nothing (an upload is missing) or a load
failure message.

Modules:

- `Skills` (skills.dfy): the vocabulary `SkillSet`, lowercasing and the skill
  filter. The natural-language tokenizer is a parameter,
  `tokenize: string -> seq<string>`. It maps the lowercased text to its token
  texts. Every property holds for every such tokenizer, unless the property
  itself states a condition on the tokens.
- `Scoring` (scoring.dfy): the scorer. Percentages are exact `real`s.
- `Analyzer` (analyzer.dfy): the missing set, the chart, the report stage, the
  gate and the choice of resume.
  - An upload is an `Option<string>`. `None` means no file was uploaded.
    `Some(text)` is the loaded text. The file loader turns every read, decode
    or parse failure into the empty text, so a failed load is `Some("")`.
- `Scenarios` (scenarios.dfy): worked passes on the example texts. Each
  pass holds for every pair of texts that the tokenizer splits into the
  tokens listed.

### Two places where the code defeats its own evident purpose

- Empty job skill set: `calculate_match_score` guards the division and
  returns a score of 0 (app.py:57-58). It returns that 0 bare, not as a pair.
  The caller at app.py:102 unpacks two values, so this pass raises an error
  and shows no report. The as-written model returns `UnpackError` here.
- Demo resume: the page offers a "Use demo resume" checkbox and builds a demo
  document when it is ticked (app.py:84-89). The next line overwrites that
  choice with the uploader's value (app.py:91), so the demo resume is never
  analysed.

Both are listed under Findings, each with a corrected definition beside the
as-written one. The corrected resume choice prefers an uploaded resume over
the demo even when the box is ticked. That precedence is this model's choice:
the source does not settle it.

## Model

| member | source | states |
|---|---|---|
| `Skills.VocabularySize` | app.py:11-14 | the vocabulary has fifteen distinct entries |
| `Skills.VocabularyLowercase` | app.py:11-14 | every vocabulary entry is unchanged by lowercasing, so each is in the form the lowered text can produce |
| `Skills.Lower` | app.py:51 | the lowercased text has the same length as the input; each of its characters is the lowercase of the character at the same position |
| `Skills.LowerIdempotent` | app.py:51 | lowercasing an already lowercased text changes nothing |
| `Skills.ExtractKnownSkills` | app.py:49-52 | the extracted skills are always a subset of the vocabulary |
| `Skills.ExtractMembership` | app.py:51-52 | an entry is extracted if and only if it is a vocabulary entry and some token of the lowercased text equals it |
| `Skills.SameTokensSameSkills` | app.py:51-52 | extraction depends only on the tokens: two texts whose lowercased forms tokenize to the same token texts give the same skills |
| `Skills.ExtractIgnoresCase` | app.py:51-52 | a text and its lowercased form give the same skills |
| `Skills.MultiWordEntries` | app.py:11-14 | the only vocabulary entries containing a space are "responsive design" and "rest apis" |
| `Skills.SpacedEntryStartsWithLetter` | app.py:11-14 | a vocabulary entry that contains a space does not start with whitespace |
| `Skills.MultiWordSkillsUnmatchable` | app.py:49-52 | if every token that contains a space is whitespace only (as with a tokenizer that emits " " or "\n" as tokens), "responsive design" and "rest apis" are never extracted, and no extracted skill contains a space |
| `Scoring.Percentage` | app.py:59 | part/total*100 lies in [0,100] when part <= total; it is 100 exactly when part == total; times the total it gives 100*part |
| `Scoring.CalculateMatchScore` | app.py:54-60 | the result is the bare `Zero` exactly when the job skill set is empty |
| `Scoring.ScoreOfNonEmptyJob` | app.py:56-60 | for a non-empty job set, matched is the intersection and a subset of both sets; the percentage times the job size is 100 times the matched size; the percentage lies in [0,100] |
| `Scoring.FullScoreIffCovered` | app.py:59 | for a non-empty job set, the score is 100 exactly when every job skill is a resume skill |
| `Scoring.ZeroScoreIffDisjoint` | app.py:56-59 | for a non-empty job set, the score is 0 exactly when the resume and job sets share no skill |
| `Scoring.ScoreMonotone` | app.py:56-59 | against the same non-empty job set, a resume skill set that contains another never scores lower |
| `Scoring.CalculateMatchScoreIntended` | app.py:54-60 | corrected scorer: always a (percentage, matched) pair with matched the intersection; on an empty job set the score is 0 and matched is empty; otherwise the result equals the as-written scorer |
| `Scoring.IntendedScoreBounds` | app.py:54-60 | the corrected scorer's percentage lies in [0,100] for all inputs |
| `Analyzer.MissingSkills` | app.py:108 | missing is a subset of the job skills, disjoint from the resume skills, and contains every job skill the resume lacks |
| `Analyzer.MatchedAndMissingPartitionJob` | app.py:56-108 | matched and missing are disjoint; their union is exactly the job skill set; their sizes add up to the job size |
| `Analyzer.CreateSkillChart` | app.py:70-73 | a matched set contained in the resume set gives a matched bar no taller than the resume bar, and likewise for the job set (that the bars are the three set sizes is stated by `Analyzer.EvaluateContents`) |
| `Analyzer.MatchedBarLowest` | app.py:70-73 | the matched bar is at most the resume bar and at most the job bar; it equals the job bar exactly when the resume covers every job skill |
| `Analyzer.Evaluate` | app.py:102-112 | the report stage either yields a report or fails to unpack the scorer's result |
| `Analyzer.EvaluateContents` | app.py:102-112 | unpacking fails exactly when the job set is empty; a report's matched, missing, score and chart bars are the intersection, the difference, 100*\|matched\|/\|job\| in [0,100] (100 exactly when covered), and the three set sizes with matched the lowest |
| `Analyzer.Analyse` | app.py:94-115 | the pass shows nothing exactly when either upload is missing |
| `Analyzer.AnalyseGate` | app.py:94-115 | a report is produced only when both uploads are present and both texts are non-empty; with both present, the outcome is the load failure message exactly when either text is empty |
| `Analyzer.AnalyseLoadedTexts` | app.py:98-113 | with both texts non-empty, the pass either reports or fails to unpack; it fails exactly when the job text yields no skill; otherwise it is the report stage applied to the two extracted skill sets |
| `Analyzer.ReportSkillsInVocabulary` | app.py:99-109 | every matched and every missing skill in a report is a vocabulary entry |
| `Analyzer.DemoResumeNeverAnalysed` | app.py:84-94 | as written, with the demo box ticked and no resume uploaded, the pass shows nothing, whatever the demo text and the job upload |
| `Analyzer.SelectResume` | app.py:84-91 | as written, the resume analysed is the uploader's value, whatever the checkbox and the demo document |
| `Analyzer.SelectResumeIntended` | app.py:84-91 | corrected choice: an uploaded resume is used if present; otherwise the demo resume is used exactly when the box is ticked |
| `Analyzer.SelectResumeIntendedAgrees` | app.py:84-91 | the corrected choice equals the choice as written except when the box is ticked and nothing is uploaded; there the as-written choice is none and the corrected one is the demo resume |
| `Analyzer.DemoResumeLoadsEmpty` | app.py:25-46 | when the demo document loads as the empty text (the loader as written fails on it, because it has no media type), the corrected choice alone still gives the load failure message in both passes, for any non-empty job text |
| `Analyzer.AnalyseIntended` | app.py:94-115 | the corrected pass never fails to unpack |
| `Analyzer.AnalyseIntendedAgrees` | app.py:94-115 | the corrected pass reports exactly when both texts are present and non-empty, and equals the as-written pass wherever that pass does not fail to unpack |
| `Analyzer.AnalyseIntendedOnEmptyJobSkills` | app.py:57-58 | where the as-written pass fails to unpack, the corrected pass reports score 0, nothing matched, nothing missing and bars (\|resume\|, 0, 0) |
| `Scenarios.HalfMatch` | app.py:94-113 | non-empty texts tokenized as resume "Experienced in Python, SQL and Git." and job "Looking for Python and Docker skills." give a report with score 50, matched {python}, missing {docker} and bars 3, 2, 1 |
| `Scenarios.SkilllessJobFailsToUnpack` | app.py:57-102 | non-empty texts tokenized as the example resume and job "Looking for a friendly team player.": the as-written pass fails to unpack; the corrected pass reports score 0 with bars 3, 0, 0 |
| `Scenarios.UnreadableJobFails` | app.py:98-115 | with any resume text, a job description that loads as the empty text gives the load failure message |
| `Scenarios.DemoResumeSkills` | app.py:21-23 | the demo resume's skills are python, sql and git; "REST APIs" tokenizes into two words and does not match "rest apis" |
| `Scenarios.DemoResume` | app.py:84-94 | with the demo box ticked and no upload, the as-written pass analyses nothing; with the corrected choice, a demo text tokenized as the demo resume scores 50 against the example job |

## Findings

| source | as written | input that shows it | evidently intended | confidence | as-written member | corrected member |
|---|---|---|---|---|---|---|
| app.py:57-58 | `calculate_match_score` returns the bare `0` when the job skill set is empty; the caller at app.py:102 unpacks two values, raises, and shows no report | both files load; job text "Looking for a friendly team player." (no vocabulary token) | return a score of 0 together with the matched set, so the report shows 0% | high, not executed | `Scenarios.SkilllessJobFailsToUnpack` | `Scoring.CalculateMatchScoreIntended` |
| app.py:86-91 | the demo resume chosen at app.py:86-89 is overwritten at app.py:91 by the uploader's value | "Use demo resume" ticked, no resume uploaded, job description uploaded | analyse the demo resume when no resume is uploaded; this also needs the loader to accept the demo document, which has no media type and so loads as the empty text (app.py:25, 31, 44-46) | medium, not executed | `Analyzer.DemoResumeNeverAnalysed` | `Analyzer.SelectResumeIntended` |

`Analyzer.Analyse` is the pass as written. `Analyzer.AnalyseIntended` uses the
corrected scorer. `Analyzer.AnalyseIntendedAgrees` shows the two passes agree
everywhere except on the failing inputs.

## Left out

- File loading (`load_text_from_file`, app.py:27-47) is not modelled. It covers
  UTF-8 decoding, page-by-page PDF text extraction and the error messages. A
  load is represented by its resulting text, and every failure by the empty
  text.
- Tokenization is not modelled: the NLP library and its model (app.py:9, 51).
  The tokenizer is a function parameter. The scenarios state the tokens they
  assume.
- The tokenizer parameter is a total function, so the model assumes the
  tokenizer returns on every text. The NLP library refuses a text longer than
  its configured maximum length (one million characters by default) with an
  exception. Nothing at app.py:51 or app.py:99-100 catches it, so such a pass
  ends with an error and no report. `Analyzer.Analyse`,
  `Analyzer.AnalyseLoadedTexts` and `Analyzer.AnalyseIntended` do not have
  this outcome. Their claims that a pass over two non-empty texts reports or
  fails to unpack hold only for texts the tokenizer accepts.
- `Skills.Lower`: lowercases only the ASCII letters A-Z. The source's `lower()`
  also folds non-ASCII letters, and that mapping is not modelled.
- Demo PDF generation (`generate_pdf`, app.py:16-25) is not modelled. The demo
  resume is represented by the text a loader would give for it. The scenarios
  assume its lines are separated by newlines when extracted.
- `Scenarios.DemoResume`: its corrected half (score 50) assumes a loader that
  accepts the demo document. The loader as written reads the media type of
  its argument (app.py:31). The demo document is an in-memory byte stream
  with no media type (app.py:25), so loading fails and yields the empty text
  (app.py:44-46). `Analyzer.DemoResumeLoadsEmpty` states that outcome. A
  corrected loader is not modelled.
- Rendering is not modelled: `display_skills`, the chart figure
  (app.py:62-79) and all page widgets. Only the values shown are modelled:
  the score, the matched and missing sets, and the bar heights. The order in
  which a set's skills are joined for display is unspecified, so it is not
  modelled.
- Two-decimal formatting of the score (app.py:104) is not modelled. Floating
  point is replaced by exact rationals. Exact rationals give the identity
  percentage * |job| == 100 * |matched| and values such as 100/3, which the
  source's floating-point 1/3*100 only approximates. Scores of 0, 50 and 100
  are exact in both.
- Re-running the page on every interaction is not modelled. The model covers
  a single analysis pass.
