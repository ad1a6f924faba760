/** One analysis pass of the resume analyzer: choosing the resume, the gate on
    the two uploads, and the report values (score, matched and missing skills,
    chart bar heights).

    An uploaded file is represented by the text the file loader produced from
    it: `None` when nothing was uploaded, `Some(text)` otherwise, where a file
    that could not be read, decoded or parsed yields `Some("")`, as the loader
    turns every failure into the empty text.
 */
module Analyzer {
  import opened Skills
  import opened Scoring

  datatype Option<T> = None | Some(value: T)

  /** The heights of the three bars of the skill chart, labelled "Resume",
      "Job Description" and "Matched". */
  datatype SkillChart = SkillChart(resumeBar: nat, jobBar: nat, matchedBar: nat)

  /** What one pass shows: nothing while an upload is missing; the load
      failure message; the unpacking error raised when the scorer returns its
      bare 0; or the report. */
  datatype Outcome =
    | AwaitingUploads
    | LoadFailed
    | UnpackError
    | Report(score: real, matched: set<string>, missing: set<string>, chart: SkillChart)

  /** The skills the job names that the resume does not. */
  function MissingSkills(resumeSkills: set<string>, jobSkills: set<string>): (m: set<string>)
    ensures m <= jobSkills
    ensures m !! resumeSkills
    ensures forall s :: s in jobSkills && s !in resumeSkills ==> s in m
  {
    jobSkills - resumeSkills
  }

  /** The bar heights are the sizes of the three skill sets; a matched set
      drawn from both skill sets gives the lowest bar. */
  function CreateSkillChart(resumeSkills: set<string>, jobSkills: set<string>, matched: set<string>): (c: SkillChart)
    ensures matched <= resumeSkills ==> c.matchedBar <= c.resumeBar
    ensures matched <= jobSkills ==> c.matchedBar <= c.jobBar
  {
    SubsetCardinality(matched, resumeSkills);
    SubsetCardinality(matched, jobSkills);
    SkillChart(|resumeSkills|, |jobSkills|, |matched|)
  }

  /** The matched skills and the missing skills split the job skills: they are
      disjoint, together they are the job skills, and their sizes add up to the
      number of job skills. */
  lemma MatchedAndMissingPartitionJob(resumeSkills: set<string>, jobSkills: set<string>)
    ensures (resumeSkills * jobSkills) !! MissingSkills(resumeSkills, jobSkills)
    ensures (resumeSkills * jobSkills) + MissingSkills(resumeSkills, jobSkills) == jobSkills
    ensures |resumeSkills * jobSkills| + |MissingSkills(resumeSkills, jobSkills)| == |jobSkills|
  {
  }

  /** The matched bar is never taller than the resume bar or the job bar, and
      reaches the job bar exactly when the resume covers every job skill. */
  lemma MatchedBarLowest(resumeSkills: set<string>, jobSkills: set<string>)
    ensures var c := CreateSkillChart(resumeSkills, jobSkills, resumeSkills * jobSkills);
            && c.matchedBar <= c.resumeBar
            && c.matchedBar <= c.jobBar
            && (c.matchedBar == c.jobBar <==> jobSkills <= resumeSkills)
  {
    var matched := resumeSkills * jobSkills;
    SubsetCardinality(matched, resumeSkills);
    SubsetCardinality(matched, jobSkills);
    if jobSkills <= resumeSkills {
      assert matched == jobSkills;
    }
  }

  /** The report stage of a pass, from the two extracted skill sets: score
      them, unpack the result into score and matched set (which fails when the
      scorer returns its bare 0), and derive the missing set and the chart. */
  function Evaluate(resumeSkills: set<string>, jobSkills: set<string>): (o: Outcome)
    ensures o.Report? || o.UnpackError?
  {
    match CalculateMatchScore(resumeSkills, jobSkills)
    case Zero => UnpackError
    case Scored(score, matched) =>
      Report(score, matched, MissingSkills(resumeSkills, jobSkills),
             CreateSkillChart(resumeSkills, jobSkills, matched))
  }

  /** Everything a report shows follows from the two skill sets: matched is
      their intersection, missing is the job skills less the resume skills,
      the score is 100 * |matched| / |job skills| and lies in [0, 100], it is
      100 exactly when the resume covers the job, and the chart bars are the
      three set sizes with the matched bar the lowest. Unpacking fails exactly
      when the job skill set is empty. */
  lemma EvaluateContents(resumeSkills: set<string>, jobSkills: set<string>)
    ensures Evaluate(resumeSkills, jobSkills).UnpackError? <==> jobSkills == {}
    ensures var o := Evaluate(resumeSkills, jobSkills);
            o.Report? ==>
            && o.matched == resumeSkills * jobSkills
            && o.missing == jobSkills - resumeSkills
            && o.matched + o.missing == jobSkills
            && o.matched !! o.missing
            && o.score * (|jobSkills| as real) == 100.0 * (|o.matched| as real)
            && 0.0 <= o.score <= 100.0
            && (o.score == 100.0 <==> jobSkills <= resumeSkills)
            && o.chart == SkillChart(|resumeSkills|, |jobSkills|, |o.matched|)
            && o.chart.matchedBar <= o.chart.resumeBar && o.chart.matchedBar <= o.chart.jobBar
  {
    if jobSkills != {} {
      ScoreOfNonEmptyJob(resumeSkills, jobSkills);
      FullScoreIffCovered(resumeSkills, jobSkills);
      MatchedAndMissingPartitionJob(resumeSkills, jobSkills);
      MatchedBarLowest(resumeSkills, jobSkills);
    }
  }

  /** One analysis pass as written: both uploads must be present, both loaded
      texts non-empty; then the skills of both are extracted and evaluated. */
  function Analyse(tokenize: string -> seq<string>, resumeText: Option<string>, jobText: Option<string>): (o: Outcome)
    ensures o.AwaitingUploads? <==> resumeText.None? || jobText.None?
  {
    if resumeText.None? || jobText.None? then AwaitingUploads
    else if resumeText.value == "" || jobText.value == "" then LoadFailed
    else Evaluate(ExtractKnownSkills(tokenize, resumeText.value), ExtractKnownSkills(tokenize, jobText.value))
  }

  /** The gate: a report is produced only when both uploads are present and
      both loaded texts are non-empty; with both present and either text empty
      the outcome is the load failure message. */
  lemma AnalyseGate(tokenize: string -> seq<string>, resumeText: Option<string>, jobText: Option<string>)
    ensures Analyse(tokenize, resumeText, jobText).Report? ==>
              resumeText.Some? && jobText.Some? && resumeText.value != "" && jobText.value != ""
    ensures resumeText.Some? && jobText.Some? ==>
              (Analyse(tokenize, resumeText, jobText) == LoadFailed <==>
                 resumeText.value == "" || jobText.value == "")
  {
  }

  /** Once both texts are loaded and non-empty the pass either reports or
      fails to unpack; it fails to unpack exactly when the job text names no
      vocabulary skill, and a report holds the values of the report stage
      applied to the two extracted skill sets. */
  lemma AnalyseLoadedTexts(tokenize: string -> seq<string>, resumeText: string, jobText: string)
    requires resumeText != "" && jobText != ""
    ensures var o := Analyse(tokenize, Some(resumeText), Some(jobText));
            && (o.Report? || o == UnpackError)
            && (o == UnpackError <==> ExtractKnownSkills(tokenize, jobText) == {})
            && o == Evaluate(ExtractKnownSkills(tokenize, resumeText), ExtractKnownSkills(tokenize, jobText))
  {
    EvaluateContents(ExtractKnownSkills(tokenize, resumeText), ExtractKnownSkills(tokenize, jobText));
  }

  /** Every skill a report lists, matched or missing, is a vocabulary entry. */
  lemma ReportSkillsInVocabulary(tokenize: string -> seq<string>, resumeText: string, jobText: string)
    requires Analyse(tokenize, Some(resumeText), Some(jobText)).Report?
    ensures Analyse(tokenize, Some(resumeText), Some(jobText)).matched <= SkillSet
    ensures Analyse(tokenize, Some(resumeText), Some(jobText)).missing <= SkillSet
  {
  }

  /** The resume the pass analyses, as written: the demo resume chosen by the
      checkbox is replaced by the uploader's value unconditionally, so only an
      uploaded resume is ever analysed. */
  function SelectResume(useDemo: bool, uploaded: Option<string>, demoText: string): (r: Option<string>)
    ensures r == uploaded
  {
    // the demo choice made first, which the uploader's value then replaces
    var chosen := if useDemo then Some(demoText) else None;
    uploaded
  }

  /** With the demo box ticked and no resume uploaded, nothing is analysed. */
  lemma DemoResumeNeverAnalysed(tokenize: string -> seq<string>, demoText: string, jobText: Option<string>)
    ensures Analyse(tokenize, SelectResume(true, None, demoText), jobText) == AwaitingUploads
  {
  }

  /** The resume choice as evidently intended: the uploaded resume if there is
      one, else the demo resume when the box is ticked, else none. */
  function SelectResumeIntended(useDemo: bool, uploaded: Option<string>, demoText: string): (r: Option<string>)
    ensures uploaded.Some? ==> r == uploaded
    ensures uploaded.None? ==> (r.Some? <==> useDemo)
    ensures uploaded.None? && useDemo ==> r == Some(demoText)
  {
    if uploaded.Some? then uploaded
    else if useDemo then Some(demoText)
    else None
  }

  /** The intended choice differs from the choice as written only when the
      demo box is ticked and no resume is uploaded; there it picks the demo
      resume where the choice as written picks nothing. */
  lemma SelectResumeIntendedAgrees(useDemo: bool, uploaded: Option<string>, demoText: string)
    ensures !(useDemo && uploaded.None?) ==>
              SelectResumeIntended(useDemo, uploaded, demoText) == SelectResume(useDemo, uploaded, demoText)
    ensures useDemo && uploaded.None? ==>
              SelectResume(useDemo, uploaded, demoText) == None &&
              SelectResumeIntended(useDemo, uploaded, demoText) == Some(demoText)
  {
  }

  /** The demo document is an in-memory byte stream with no media type, so
      the file loader, which dispatches on the media type, fails on it and
      yields the empty text. Choosing the demo resume as intended therefore
      still ends in the load failure message unless the loader also accepts
      the demo document. */
  lemma DemoResumeLoadsEmpty(tokenize: string -> seq<string>, jobText: string)
    requires jobText != ""
    ensures Analyse(tokenize, SelectResumeIntended(true, None, ""), Some(jobText)) == LoadFailed
    ensures AnalyseIntended(tokenize, SelectResumeIntended(true, None, ""), Some(jobText)) == LoadFailed
  {
  }

  /** One analysis pass as evidently intended: as written, except that the
      scorer always yields a (score, matched) pair, so an empty job skill set
      gives a report with score 0. */
  function AnalyseIntended(tokenize: string -> seq<string>, resumeText: Option<string>, jobText: Option<string>): (o: Outcome)
    ensures !o.UnpackError?
  {
    if resumeText.None? || jobText.None? then AwaitingUploads
    else if resumeText.value == "" || jobText.value == "" then LoadFailed
    else
      var resumeSkills := ExtractKnownSkills(tokenize, resumeText.value);
      var jobSkills := ExtractKnownSkills(tokenize, jobText.value);
      var s := CalculateMatchScoreIntended(resumeSkills, jobSkills);
      Report(s.percentage, s.matched, MissingSkills(resumeSkills, jobSkills),
             CreateSkillChart(resumeSkills, jobSkills, s.matched))
  }

  /** The intended pass reports exactly when both texts are present and
      non-empty, and it agrees with the pass as written on every input where
      that one does not fail to unpack. */
  lemma AnalyseIntendedAgrees(tokenize: string -> seq<string>, resumeText: Option<string>, jobText: Option<string>)
    ensures AnalyseIntended(tokenize, resumeText, jobText).Report? <==>
              resumeText.Some? && jobText.Some? && resumeText.value != "" && jobText.value != ""
    ensures Analyse(tokenize, resumeText, jobText) != UnpackError ==>
              AnalyseIntended(tokenize, resumeText, jobText) == Analyse(tokenize, resumeText, jobText)
  {
  }

  /** Where the pass as written fails to unpack, the intended pass reports a
      score of 0 with nothing matched and every job skill missing (none, since
      the job names no skill). */
  lemma AnalyseIntendedOnEmptyJobSkills(tokenize: string -> seq<string>, resumeText: string, jobText: string)
    requires Analyse(tokenize, Some(resumeText), Some(jobText)) == UnpackError
    ensures AnalyseIntended(tokenize, Some(resumeText), Some(jobText)) ==
              Report(0.0, {}, {}, SkillChart(|ExtractKnownSkills(tokenize, resumeText)|, 0, 0))
  {
  }
}
