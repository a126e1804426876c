/** The parsing pipeline of `process_resume` (ResumeParser.py lines
    233-245): contacts, the skills present, the predicted domain, then the
    score of the resume against that domain's rubric. */
module Pipeline {
  import opened Text
  import opened Tables
  import opened SkillMatcher
  import opened DomainPredictor
  import opened CategoryScorer
  import opened Contact

  /** The `result` dictionary. */
  datatype ParsedResume = ParsedResume(
    name: string,
    email: string,
    topSkills: seq<string>,
    predictedDomain: string,
    score: nat,
    scoreBreakdown: seq<Entry>)

  /** What `process_resume` computes from the extracted text. */
  ghost function Parsed(text: string): ParsedResume {
    var domain := Predicted(Presence(text));
    var scored := ScoreAndExtractSkills(text, domain);
    ParsedResume(Lower(NameOf(text)), EmailOf(text), scored.topSkills, domain,
                 scored.totalScore, scored.breakdown)
  }

  /** `process_resume` after the text is extracted and before it is saved:
      the domain is predicted from every vocabulary term present, and the
      list of those terms is then replaced by the five most frequent. */
  method ProcessResume(text: string) returns (result: ParsedResume)
    ensures result == Parsed(text)
  {
    var name, email := ExtractNameEmail(text);
    var topSkills := Presence(text);
    var domain := PredictRole(topSkills);
    var scored := ScoreAndExtractSkills(text, domain);
    result := ParsedResume(Lower(name), email, scored.topSkills, domain,
                           scored.totalScore, scored.breakdown);
  }

  /** The predicted domain is always a label; the score is the sum of the
      breakdown, between 20 and 100; at most five skills are reported, each
      a vocabulary term occurring in the text. */
  lemma ParsedWellFormed(text: string)
    ensures Parsed(text).predictedDomain in DomainLabels
    ensures Parsed(text).score == Total(Parsed(text).scoreBreakdown)
    ensures 20 <= Parsed(text).score <= 100
    ensures |Parsed(text).topSkills| <= 5
    ensures forall s :: s in Parsed(text).topSkills ==> s in SkillKeywords && Contains(text, s)
  {
    var r := Parsed(text);
    PredictedIsFirstBest(Presence(text));
    FormattingAlwaysScored(text, r.predictedDomain);
    TopSkillsPresent(text);
  }

  /** Every reported skill is a vocabulary term that occurs in the text. */
  lemma TopSkillsPresent(text: string)
    ensures forall s :: s in TopSkills(text) ==> s in SkillKeywords && Contains(text, s)
  {
    TopTalliesRanked(text);
    SkillCountsPositive(text);
    forall s | s in TopSkills(text)
      ensures s in SkillKeywords && Contains(text, s)
    {
      var i :| 0 <= i < |TopSkills(text)| && TopSkills(text)[i] == s;
      assert TopTallies(text)[i] in SkillCounts(text);
    }
  }

  /** The stored name is the extracted name lower-cased. */
  lemma ParsedName(text: string)
    ensures |Parsed(text).name| == |NameOf(text)|
    ensures forall i :: 0 <= i < |Parsed(text).name| ==> !('A' <= Parsed(text).name[i] <= 'Z')
  {
    LowerHasNoUpper(NameOf(text));
  }

  /** The stored email is "Not found" exactly when the text holds no match. */
  lemma ParsedEmail(text: string)
    ensures Parsed(text).email == "Not found" <==> forall i :: !EmailAt(text, i)
  {
    EmailNotFoundIff(text);
  }
}
