/** Worked passes of the analyzer. The tokenizer stays a parameter, and so do
    the texts: each lemma holds for every text whose lowercased form the
    tokenizer splits into the tokens it lists. The example texts are the resume
    "Experienced in Python, SQL and Git.", the job description "Looking for
    Python and Docker skills.", the job description "Looking for a friendly
    team player." and the demo resume, whose three lines are "John Doe",
    "Software Engineer" and "Skills: Python, SQL, Git, REST APIs". */
module Scenarios {
  import opened Skills
  import opened Scoring
  import opened Analyzer

  /** The skills of the example resume, under a tokenizer that splits off
      punctuation. */
  lemma ResumeSkills(tokenize: string -> seq<string>, text: string)
    requires tokenize(Lower(text)) == ["experienced", "in", "python", ",", "sql", "and", "git", "."]
    ensures ExtractKnownSkills(tokenize, text) == {"python", "sql", "git"}
  {
  }

  /** The skills of the example job description. */
  lemma JobSkills(tokenize: string -> seq<string>, text: string)
    requires tokenize(Lower(text)) == ["looking", "for", "python", "and", "docker", "skills", "."]
    ensures ExtractKnownSkills(tokenize, text) == {"python", "docker"}
  {
  }

  /** Python, SQL and Git against Python and Docker: one of two job skills is
      matched, so the score is 50, Docker is missing, and the bars are 3, 2
      and 1. */
  lemma HalfMatchReport()
    ensures Evaluate({"python", "sql", "git"}, {"python", "docker"}) ==
              Report(50.0, {"python"}, {"docker"}, SkillChart(3, 2, 1))
  {
    var r: set<string> := {"python", "sql", "git"};
    var j: set<string> := {"python", "docker"};
    assert r * j == {"python"};
    assert j - r == {"docker"};
    assert |r| == 3 && |j| == 2 && |r * j| == 1;
  }

  /** The example pass: the resume names Python, SQL and Git, the job Python
      and Docker, and the report shows a score of 50 with Docker missing. */
  lemma HalfMatch(tokenize: string -> seq<string>, resumeText: string, jobText: string)
    requires resumeText != "" && jobText != ""
    requires tokenize(Lower(resumeText)) == ["experienced", "in", "python", ",", "sql", "and", "git", "."]
    requires tokenize(Lower(jobText)) == ["looking", "for", "python", "and", "docker", "skills", "."]
    ensures Analyse(tokenize, Some(resumeText), Some(jobText)) ==
              Report(50.0, {"python"}, {"docker"}, SkillChart(3, 2, 1))
  {
    ResumeSkills(tokenize, resumeText);
    JobSkills(tokenize, jobText);
    HalfMatchReport();
  }

  /** The job description that names no vocabulary skill yields no skills. */
  lemma NoSkillJobSkills(tokenize: string -> seq<string>, text: string)
    requires tokenize(Lower(text)) == ["looking", "for", "a", "friendly", "team", "player", "."]
    ensures ExtractKnownSkills(tokenize, text) == {}
  {
  }

  /** A job description that names no vocabulary skill: as written the pass
      fails to unpack the scorer's bare 0 and shows no report at all; as
      intended it reports a score of 0. */
  lemma SkilllessJobFailsToUnpack(tokenize: string -> seq<string>, resumeText: string, jobText: string)
    requires resumeText != "" && jobText != ""
    requires tokenize(Lower(resumeText)) == ["experienced", "in", "python", ",", "sql", "and", "git", "."]
    requires tokenize(Lower(jobText)) == ["looking", "for", "a", "friendly", "team", "player", "."]
    ensures Analyse(tokenize, Some(resumeText), Some(jobText)) == UnpackError
    ensures AnalyseIntended(tokenize, Some(resumeText), Some(jobText)) ==
              Report(0.0, {}, {}, SkillChart(3, 0, 0))
  {
    ResumeSkills(tokenize, resumeText);
    NoSkillJobSkills(tokenize, jobText);
    assert |{"python", "sql", "git"}| == 3;
  }

  /** An unreadable job description loads as the empty text: the pass shows
      the load failure message and no score. */
  lemma UnreadableJobFails(tokenize: string -> seq<string>, resumeText: string)
    ensures Analyse(tokenize, Some(resumeText), Some("")) == LoadFailed
  {
  }

  /** The demo resume tokenizes into single words, so "REST APIs" does not
      match the vocabulary entry "rest apis" and its skills are Python, SQL
      and Git. */
  lemma DemoResumeSkills(tokenize: string -> seq<string>, text: string)
    requires tokenize(Lower(text)) ==
               ["john", "doe", "\n", "software", "engineer", "\n", "skills", ":",
                "python", ",", "sql", ",", "git", ",", "rest", "apis"]
    ensures ExtractKnownSkills(tokenize, text) == {"python", "sql", "git"}
  {
  }

  /** As written, ticking the demo box without uploading a resume analyses
      nothing; as intended, it analyses the demo resume, which scores 50
      against the example job description. */
  lemma DemoResume(tokenize: string -> seq<string>, demoText: string, jobText: string)
    requires demoText != "" && jobText != ""
    requires tokenize(Lower(demoText)) ==
               ["john", "doe", "\n", "software", "engineer", "\n", "skills", ":",
                "python", ",", "sql", ",", "git", ",", "rest", "apis"]
    requires tokenize(Lower(jobText)) == ["looking", "for", "python", "and", "docker", "skills", "."]
    ensures Analyse(tokenize, SelectResume(true, None, demoText), Some(jobText)) == AwaitingUploads
    ensures Analyse(tokenize, SelectResumeIntended(true, None, demoText), Some(jobText)) ==
              Report(50.0, {"python"}, {"docker"}, SkillChart(3, 2, 1))
  {
    DemoResumeSkills(tokenize, demoText);
    JobSkills(tokenize, jobText);
    HalfMatchReport();
  }
}
