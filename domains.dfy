/** The domain predictor, `predict_role` (ResumeParser.py lines 147-159): each
    domain scores the number of its keywords among the matched skills, the
    civil domain earns two more points per civil bonus term present, and the
    first domain with the largest score wins. */
module DomainPredictor {
  import opened Tables

  /** The bonus terms of the civil domain (line 154). Four of them are also
      civil keywords and so count three times in all. */
  const CivilBonusTerms: seq<string> :=
    ["staad pro", "etabs", "revit", "civil 3d", "site engineering", "geotechnical"]

  /** The number of entries of `terms` that are among `skills`. */
  function BonusHits(skills: set<string>, terms: seq<string>): (n: nat)
    ensures n <= |terms|
  {
    if terms == [] then 0
    else BonusHits(skills, terms[..|terms| - 1]) + (if terms[|terms| - 1] in skills then 1 else 0)
  }

  /** The score of one domain for a set of matched skills. */
  function DomainScore(skills: set<string>, d: Domain): nat {
    |skills * d.KeywordSet()| + (if d.name == CivilEngineer then 2 * BonusHits(skills, CivilBonusTerms) else 0)
  }

  /** The `role_scores` of the source, in the order of `DOMAIN_ROLES`. */
  function Scores(skills: set<string>): seq<nat> {
    seq(|DomainRoles|, k requires 0 <= k < |DomainRoles| => DomainScore(skills, DomainRoles[k]))
  }

  /** The position Python's `max` picks: a largest element, and the first
      one when several are largest. */
  function FirstMax(xs: seq<int>): (k: nat)
    requires |xs| > 0
    ensures k < |xs|
    ensures forall j :: 0 <= j < |xs| ==> xs[j] <= xs[k]
    ensures forall j :: 0 <= j < k ==> xs[j] < xs[k]
  {
    if |xs| == 1 then 0
    else
      var k := FirstMax(xs[..|xs| - 1]);
      if xs[|xs| - 1] > xs[k] then |xs| - 1 else k
  }

  /** Only one position is a first largest element. */
  lemma FirstMaxUnique(xs: seq<int>, k: nat)
    requires k < |xs|
    requires forall j :: 0 <= j < |xs| ==> xs[j] <= xs[k]
    requires forall j :: 0 <= j < k ==> xs[j] < xs[k]
    ensures k == FirstMax(xs)
  {
  }

  ghost function SkillSet(skills: seq<string>): set<string> {
    set s | s in skills
  }

  /** The label `predict_role` returns for a list of matched skills. */
  ghost function Predicted(skills: seq<string>): string {
    DomainRoles[FirstMax(Scores(SkillSet(skills)))].name
  }

  /** One pass of `predict_role`'s loop: the keyword overlap, then two
      points per civil bonus term present when `d` is the civil domain. */
  method ScoreDomain(skillSet: set<string>, d: Domain) returns (matchCount: nat)
    ensures matchCount == DomainScore(skillSet, d)
  {
    matchCount := |skillSet * d.KeywordSet()|;
    if d.name == CivilEngineer {
      for j := 0 to |CivilBonusTerms|
        invariant matchCount == |skillSet * d.KeywordSet()| + 2 * BonusHits(skillSet, CivilBonusTerms[..j])
      {
        assert CivilBonusTerms[..j + 1][..j] == CivilBonusTerms[..j];
        if CivilBonusTerms[j] in skillSet {
          matchCount := matchCount + 2;
        }
      }
      assert CivilBonusTerms[..|CivilBonusTerms|] == CivilBonusTerms;
    }
  }

  /** `predict_role`: scores the domains one by one into `roleScores`, then
      takes the first domain with the largest score. */
  method PredictRole(skills: seq<string>) returns (domain: string)
    ensures domain == Predicted(skills)
  {
    var skillSet := set s | s in skills;
    var roleScores: seq<nat> := [];
    for i := 0 to |DomainRoles|
      invariant |roleScores| == i
      invariant forall k :: 0 <= k < i ==> roleScores[k] == DomainScore(skillSet, DomainRoles[k])
    {
      var matchCount := ScoreDomain(skillSet, DomainRoles[i]);
      roleScores := roleScores + [matchCount];
    }
    assert roleScores == Scores(skillSet);
    var best := BestIndex(roleScores);
    domain := DomainRoles[best].name;
  }

  /** `max(role_scores, key=role_scores.get)`: scans the scores in order
      and moves only to a strictly larger one. */
  method BestIndex(scores: seq<nat>) returns (best: nat)
    requires |scores| > 0
    ensures best == FirstMax(scores)
  {
    best := 0;
    for i := 1 to |scores|
      invariant best < i
      invariant forall j :: 0 <= j < i ==> scores[j] <= scores[best]
      invariant forall j :: 0 <= j < best ==> scores[j] < scores[best]
    {
      if scores[i] > scores[best] {
        best := i;
      }
    }
    FirstMaxUnique(scores, best);
  }

  /** The prediction is always one of the domain labels, and its domain
      scores at least as much as every other and more than every domain
      before it. */
  lemma PredictedIsFirstBest(skills: seq<string>)
    ensures Predicted(skills) in DomainLabels
    ensures exists k :: (0 <= k < |DomainRoles| && Predicted(skills) == DomainRoles[k].name
      && (forall j :: 0 <= j < |DomainRoles| ==> Scores(SkillSet(skills))[j] <= Scores(SkillSet(skills))[k])
      && (forall j :: 0 <= j < k ==> Scores(SkillSet(skills))[j] < Scores(SkillSet(skills))[k]))
  {
    DistinctLabels();
    var k := FirstMax(Scores(SkillSet(skills)));
    assert DomainRoles[k].name == DomainLabels[k];
  }

  lemma {:induction false} NoBonusWithoutSkills(terms: seq<string>)
    ensures BonusHits({}, terms) == 0
    decreases |terms|
  {
    if terms != [] {
      NoBonusWithoutSkills(terms[..|terms| - 1]);
    }
  }

  /** When every domain scores zero, the first domain wins. */
  lemma {:induction false} AllZeroPicksFirst(skills: seq<string>)
    requires forall k :: 0 <= k < |DomainRoles| ==> Scores(SkillSet(skills))[k] == 0
    ensures Predicted(skills) == ComputerScience
  {
    var xs := Scores(SkillSet(skills));
    FirstMaxUnique(xs, 0);
  }

  /** An empty skill list is predicted as the first domain. */
  lemma {:induction false} NoSkillsPredictsFirst()
    ensures Predicted([]) == ComputerScience
  {
    assert SkillSet([]) == {};
    NoBonusWithoutSkills(CivilBonusTerms);
    forall k | 0 <= k < |DomainRoles| ensures Scores({})[k] == 0 {
      assert {} * DomainRoles[k].KeywordSet() == {};
    }
    AllZeroPicksFirst([]);
  }

  // ---------------------------------------------------------------------------
  // The civil bonus
  // ---------------------------------------------------------------------------

  /** Adding a skill raises the bonus by the number of times the term is
      listed among the bonus terms. */
  lemma {:induction false} BonusHitsAdd(skills: set<string>, x: string, terms: seq<string>)
    requires x !in skills
    ensures BonusHits(skills + {x}, terms) == BonusHits(skills, terms) + multiset(terms)[x]
    decreases |terms|
  {
    if terms != [] {
      var init := terms[..|terms| - 1];
      assert terms == init + [terms[|terms| - 1]];
      BonusHitsAdd(skills, x, init);
    }
  }

  /** More matched skills never lower the bonus. */
  lemma {:induction false} BonusHitsMonotone(skills: set<string>, more: set<string>, terms: seq<string>)
    requires skills <= more
    ensures BonusHits(skills, terms) <= BonusHits(more, terms)
    decreases |terms|
  {
    if terms != [] {
      BonusHitsMonotone(skills, more, terms[..|terms| - 1]);
    }
  }

  lemma SubsetCardinality(a: set<string>, b: set<string>)
    requires a <= b
    ensures |a| <= |b|
  {
    assert b == a + (b - a);
  }

  /** More matched skills never lower any domain's score. */
  lemma DomainScoreMonotone(skills: set<string>, more: set<string>, d: Domain)
    requires skills <= more
    ensures DomainScore(skills, d) <= DomainScore(more, d)
  {
    SubsetCardinality(skills * d.KeywordSet(), more * d.KeywordSet());
    BonusHitsMonotone(skills, more, CivilBonusTerms);
  }

  /** The civil score is its keyword overlap plus two points per bonus term,
      so never below the plain overlap. */
  lemma CivilScoreWithBonus(skills: set<string>)
    ensures DomainRoles[3].name == CivilEngineer
    ensures DomainScore(skills, DomainRoles[3])
      == |skills * DomainRoles[3].KeywordSet()| + 2 * BonusHits(skills, CivilBonusTerms)
    ensures DomainScore(skills, DomainRoles[3]) >= |skills * DomainRoles[3].KeywordSet()|
  {
  }

  /** A skill that is both a civil keyword and a bonus term ("staad pro")
      adds three to the civil score; a bonus-only term ("geotechnical") adds
      two; a keyword-only term ("autocad civil") adds one. */
  lemma {:induction false} CivilTermWeights(skills: set<string>, x: string)
    requires x !in skills
    requires x in {"staad pro", "geotechnical", "autocad civil"}
    ensures DomainScore(skills + {x}, DomainRoles[3]) == DomainScore(skills, DomainRoles[3])
      + (if x == "staad pro" then 3 else if x == "geotechnical" then 2 else 1)
  {
    DomainScoreAdd(skills, x, DomainRoles[3]);
    CivilMemberships();
  }

  /** Adding a new skill raises a domain's score by one if it is one of the
      domain's keywords, plus, for the civil domain, two for each time it is
      listed among the bonus terms. */
  lemma DomainScoreAdd(skills: set<string>, x: string, d: Domain)
    requires x !in skills
    ensures DomainScore(skills + {x}, d) == DomainScore(skills, d)
      + (if x in d.KeywordSet() then 1 else 0)
      + (if d.name == CivilEngineer then 2 * multiset(CivilBonusTerms)[x] else 0)
  {
    var kw := d.KeywordSet();
    BonusHitsAdd(skills, x, CivilBonusTerms);
    if x in kw {
      assert (skills + {x}) * kw == skills * kw + {x};
    } else {
      assert (skills + {x}) * kw == skills * kw;
    }
  }

  lemma CivilMemberships()
    ensures "staad pro" in DomainRoles[3].KeywordSet() && multiset(CivilBonusTerms)["staad pro"] == 1
    ensures "geotechnical" !in DomainRoles[3].KeywordSet() && multiset(CivilBonusTerms)["geotechnical"] == 1
    ensures "autocad civil" in DomainRoles[3].KeywordSet() && multiset(CivilBonusTerms)["autocad civil"] == 0
  {
  }
}
