/** The scorer: how much of the job description's skill set the resume covers.

    Percentages are exact rationals (`real`); the source computes them in
    floating point.
 */
module Scoring {

  /** What the scorer returns. The source returns the bare value 0 when the job
      skill set is empty (`Zero`), and otherwise a pair of the percentage and
      the matched skills (`Scored`). */
  datatype MatchScore = Zero | Scored(percentage: real, matched: set<string>)

  /** A subset is no larger than its superset, and only the superset itself
      has the same size. */
  lemma SubsetCardinality(a: set<string>, b: set<string>)
    ensures a <= b ==> |a| <= |b|
    ensures a <= b && |a| == |b| ==> a == b
  {
    if !(a <= b) {
      return;
    }
    var rest := b - a;
    assert b == a + rest;
    assert a * rest == {};
    assert |b| == |a| + |rest|;
    if |a| == |b| {
      assert |rest| == 0;
      assert rest == {};
    }
  }

  /** The percentage of `total` that `part` makes up, computed as the source
      does: divide, then multiply by 100. */
  function Percentage(part: nat, total: nat): (p: real)
    requires 0 < total
    ensures part <= total ==> 0.0 <= p <= 100.0
    ensures p == 100.0 <==> part == total
    ensures p * (total as real) == 100.0 * (part as real)
  {
    ((part as real) / (total as real)) * 100.0
  }

  /** A larger part is a larger percentage of the same total. */
  lemma PercentageMonotone(part1: nat, part2: nat, total: nat)
    requires 0 < total
    requires part1 <= part2
    ensures Percentage(part1, total) <= Percentage(part2, total)
  {
    var t := total as real;
    assert (part1 as real) / t <= (part2 as real) / t;
  }

  /** The scorer as written: the matched skills are those in both sets; on an
      empty job set the result is the bare `Zero`, otherwise the percentage of
      job skills the resume covers together with the matched set. */
  function CalculateMatchScore(resumeSkills: set<string>, jobSkills: set<string>): (s: MatchScore)
    ensures s.Zero? <==> jobSkills == {}
  {
    var matched := resumeSkills * jobSkills;
    if jobSkills == {} then Zero
    else Scored(Percentage(|matched|, |jobSkills|), matched)
  }

  /** When the job set is non-empty the scorer returns the matched set, which
      is the intersection and so a subset of both inputs, and the percentage
      100 * |matched| / |job skills|, which lies in [0, 100]. */
  lemma ScoreOfNonEmptyJob(resumeSkills: set<string>, jobSkills: set<string>)
    requires jobSkills != {}
    ensures CalculateMatchScore(resumeSkills, jobSkills).Scored?
    ensures var s := CalculateMatchScore(resumeSkills, jobSkills);
            && s.matched == resumeSkills * jobSkills
            && s.matched <= resumeSkills && s.matched <= jobSkills
            && s.percentage * (|jobSkills| as real) == 100.0 * (|s.matched| as real)
            && 0.0 <= s.percentage <= 100.0
  {
    SubsetCardinality(resumeSkills * jobSkills, jobSkills);
  }

  /** With a non-empty job set the score is 100 exactly when the resume names
      every skill the job names. */
  lemma FullScoreIffCovered(resumeSkills: set<string>, jobSkills: set<string>)
    requires jobSkills != {}
    ensures CalculateMatchScore(resumeSkills, jobSkills).Scored?
    ensures CalculateMatchScore(resumeSkills, jobSkills).percentage == 100.0 <==> jobSkills <= resumeSkills
  {
    SubsetCardinality(resumeSkills * jobSkills, jobSkills);
    if jobSkills <= resumeSkills {
      assert resumeSkills * jobSkills == jobSkills;
    }
  }

  /** With a non-empty job set the score is 0 exactly when the two sets share
      no skill. */
  lemma ZeroScoreIffDisjoint(resumeSkills: set<string>, jobSkills: set<string>)
    requires jobSkills != {}
    ensures CalculateMatchScore(resumeSkills, jobSkills).Scored?
    ensures CalculateMatchScore(resumeSkills, jobSkills).percentage == 0.0 <==> resumeSkills !! jobSkills
  {
    var matched := resumeSkills * jobSkills;
    if resumeSkills !! jobSkills {
      assert matched == {};
    } else {
      var x :| x in resumeSkills && x in jobSkills;
      assert x in matched;
      assert |matched| > 0;
    }
  }

  /** A resume that names more skills never scores lower against the same job. */
  lemma ScoreMonotone(resume1: set<string>, resume2: set<string>, jobSkills: set<string>)
    requires jobSkills != {}
    requires resume1 <= resume2
    ensures CalculateMatchScore(resume1, jobSkills).Scored?
    ensures CalculateMatchScore(resume2, jobSkills).Scored?
    ensures CalculateMatchScore(resume1, jobSkills).percentage <= CalculateMatchScore(resume2, jobSkills).percentage
  {
    SubsetCardinality(resume1 * jobSkills, resume2 * jobSkills);
    PercentageMonotone(|resume1 * jobSkills|, |resume2 * jobSkills|, |jobSkills|);
  }

  /** The scorer as evidently intended: a (percentage, matched) pair on every
      input, with percentage 0 when the job set is empty. */
  function CalculateMatchScoreIntended(resumeSkills: set<string>, jobSkills: set<string>): (s: MatchScore)
    ensures s.Scored?
    ensures s.matched == resumeSkills * jobSkills
    ensures jobSkills == {} ==> s.percentage == 0.0 && s.matched == {}
    ensures jobSkills != {} ==> s == CalculateMatchScore(resumeSkills, jobSkills)
  {
    var matched := resumeSkills * jobSkills;
    if jobSkills == {} then Scored(0.0, matched)
    else Scored(Percentage(|matched|, |jobSkills|), matched)
  }

  /** The intended scorer's percentage always lies in [0, 100]. */
  lemma IntendedScoreBounds(resumeSkills: set<string>, jobSkills: set<string>)
    ensures 0.0 <= CalculateMatchScoreIntended(resumeSkills, jobSkills).percentage <= 100.0
  {
    if jobSkills != {} {
      ScoreOfNonEmptyJob(resumeSkills, jobSkills);
    }
  }
}
