/** The category scorer, `score_and_extract_skills` (ResumeParser.py lines
    162-209): the rubric of the predicted domain decides which categories are
    scored, and each category the scorer has a branch for earns points by a
    fixed rule. */
module CategoryScorer {
  import opened Text
  import opened Tables
  import opened SkillMatcher

  /** Points a trigger category earns when none of its phrases occurs. */
  const Floor: nat := 5

  const CadTerms: seq<string> := ["cad", "autocad", "fea", "civil 3d", "revit"]
  const CircuitTerms: seq<string> := ["circuit", "vhdl", "simulink"]

  /** The keywords of the lawyer domain, summed over by `legal_skills`. */
  function LegalTerms(): seq<string> {
    DomainRoles[6].keywords
  }

  // ---------------------------------------------------------------------------
  // The twelve branches
  // ---------------------------------------------------------------------------

  /** The category of the `i`-th of the scorer's twelve branches, in the
      order it tests them: every category but the lawyer's `Internships`. */
  function Branch(i: nat): (c: Category)
    requires i < 12
    ensures c != Internships
  {
    match i
    case 0 => Skills
    case 1 => CadSkills
    case 2 => CircuitSkills
    case 3 => Projects
    case 4 => Certifications
    case 5 => Experience
    case 6 => Internship
    case 7 => Research
    case 8 => LegalExperience
    case 9 => LegalSkills
    case 10 => MootsCertifications
    case _ => Formatting
  }

  /** The branch that tests category `c`. */
  function Position(c: Category): (i: nat)
    requires c != Internships
    ensures i < 12 && Branch(i) == c
  {
    match c
    case Skills => 0
    case CadSkills => 1
    case CircuitSkills => 2
    case Projects => 3
    case Certifications => 4
    case Experience => 5
    case Internship => 6
    case Research => 7
    case LegalExperience => 8
    case LegalSkills => 9
    case MootsCertifications => 10
    case Formatting => 11
  }

  /** Distinct branches test distinct categories. */
  lemma BranchesDistinct(i: nat, j: nat)
    requires i < 12 && j < 12 && i != j
    ensures Branch(i) != Branch(j)
  {
  }

  /** How a category earns its points, given its rubric weight. */
  datatype Rule =
    | DistinctSkills(factor: nat)                   // min(weight, factor * number of terms found)
    | Occurrences(factor: nat, terms: seq<string>)  // min(weight, factor * total count of the terms)
    | Trigger(phrases: seq<string>)                 // weight if a phrase occurs, else Floor
    | Baseline                                      // always the weight

  /** The rule of each category that has a branch. */
  function RuleOf(c: Category): Rule
    requires c != Internships
  {
    match c
    case Skills => DistinctSkills(2)
    case CadSkills => Occurrences(5, CadTerms)
    case CircuitSkills => Occurrences(5, CircuitTerms)
    case Projects => Trigger(["project"])
    case Certifications => Trigger(["certificate"])
    case Experience => Trigger(["experience"])
    case Internship => Trigger(["internship"])
    case Research => Trigger(["research"])
    case LegalExperience => Trigger(["law firm", "court"])
    case LegalSkills => Occurrences(2, LegalTerms())
    case MootsCertifications => Trigger(["moot"])
    case Formatting => Baseline
  }

  /** `sum(text.count(t) for t in terms)`. */
  function SumCounts(text: string, terms: seq<string>): nat {
    if terms == [] then 0 else Count(text, terms[0]) + SumCounts(text, terms[1..])
  }

  /** Whether any of `phrases` occurs in `text` (`p in text or q in text`). */
  predicate AnyIn(text: string, phrases: seq<string>) {
    exists p :: p in phrases && Contains(text, p)
  }

  /** The points a category with rule `rule` and rubric weight `weight`
      earns on `text`. */
  function Points(rule: Rule, weight: nat, text: string): nat {
    match rule
    case DistinctSkills(factor) => Min(weight, factor * |Presence(text)|)
    case Occurrences(factor, terms) => Min(weight, factor * SumCounts(text, terms))
    case Trigger(phrases) => if AnyIn(text, phrases) then weight else Floor
    case Baseline => weight
  }

  // ---------------------------------------------------------------------------
  // The breakdown
  // ---------------------------------------------------------------------------

  /** One entry of the breakdown dictionary, in insertion order. */
  datatype Entry = Entry(category: Category, points: nat)

  /** The entry the `i`-th branch adds: none when the rubric lacks its
      category. */
  function BranchEntry(text: string, rubric: map<Category, nat>, i: nat): seq<Entry>
    requires i < 12
  {
    var c := Branch(i);
    if c in rubric then [Entry(c, Points(RuleOf(c), rubric[c], text))] else []
  }

  /** The breakdown after the first `k` branches. */
  function BreakdownUpTo(text: string, rubric: map<Category, nat>, k: nat): seq<Entry>
    requires k <= 12
  {
    if k == 0 then [] else BreakdownUpTo(text, rubric, k - 1) + BranchEntry(text, rubric, k - 1)
  }

  /** The `score` dictionary the scorer returns. */
  function Breakdown(text: string, rubric: map<Category, nat>): seq<Entry> {
    BreakdownUpTo(text, rubric, 12)
  }

  /** `sum(score.values())`. */
  function Total(entries: seq<Entry>): nat {
    if entries == [] then 0 else entries[0].points + Total(entries[1..])
  }

  /** What `score_and_extract_skills` returns. */
  datatype Scored = Scored(topSkills: seq<string>, totalScore: nat, breakdown: seq<Entry>)

  /** `score_and_extract_skills(text, domain)`. */
  function ScoreAndExtractSkills(text: string, domain: string): (r: Scored)
    ensures |r.topSkills| <= 5
    ensures r.totalScore <= 100
    ensures forall i :: 0 <= i < |r.breakdown| ==> r.breakdown[i].category in RubricFor(domain)
  {
    var breakdown := Breakdown(text, RubricFor(domain));
    TopTalliesRanked(text);
    TotalAtMostHundred(text, domain);
    BreakdownFollowsRubric(text, RubricFor(domain));
    Scored(TopSkills(text), Total(breakdown), breakdown)
  }

  // ---------------------------------------------------------------------------
  // Which categories appear, in which order, with which points
  // ---------------------------------------------------------------------------

  function Categories(entries: seq<Entry>): seq<Category> {
    seq(|entries|, i requires 0 <= i < |entries| => entries[i].category)
  }

  /** Each entry of the first `k` branches is a rubric category tested by one
      of them, with the points of its rule. */
  lemma {:induction false} EntriesUpTo(text: string, rubric: map<Category, nat>, k: nat)
    requires k <= 12
    ensures forall i :: 0 <= i < |BreakdownUpTo(text, rubric, k)| ==>
      (var e := BreakdownUpTo(text, rubric, k)[i];
       e.category in rubric && e.category != Internships && Position(e.category) < k
       && e.points == Points(RuleOf(e.category), rubric[e.category], text))
  {
    if k > 0 {
      EntriesUpTo(text, rubric, k - 1);
      var pre := BreakdownUpTo(text, rubric, k - 1);
      var b := BreakdownUpTo(text, rubric, k);
      assert b == pre + BranchEntry(text, rubric, k - 1);
      assert forall i :: 0 <= i < |pre| ==> b[i] == pre[i];
    }
  }

  /** Every rubric category tested by the first `k` branches has an entry. */
  lemma {:induction false} CompleteUpTo(text: string, rubric: map<Category, nat>, k: nat)
    requires k <= 12
    ensures forall c :: c in rubric && c != Internships && Position(c) < k ==>
      c in Categories(BreakdownUpTo(text, rubric, k))
  {
    if k > 0 {
      CompleteUpTo(text, rubric, k - 1);
      var pre := BreakdownUpTo(text, rubric, k - 1);
      var b := BreakdownUpTo(text, rubric, k);
      assert b == pre + BranchEntry(text, rubric, k - 1);
      forall c | c in rubric && c != Internships && Position(c) < k
        ensures c in Categories(b)
      {
        if Position(c) < k - 1 {
          var i :| 0 <= i < |pre| && Categories(pre)[i] == c;
          assert b[i] == pre[i];
          assert Categories(b)[i] == c;
        } else {
          assert Categories(b)[|pre|] == c;
        }
      }
    }
  }

  /** The entries of the first `k` branches come in branch order. */
  lemma {:induction false} OrderedUpTo(text: string, rubric: map<Category, nat>, k: nat)
    requires k <= 12
    ensures forall i :: 0 <= i < |BreakdownUpTo(text, rubric, k)| ==> BreakdownUpTo(text, rubric, k)[i].category != Internships
    ensures forall i, j :: 0 <= i < j < |BreakdownUpTo(text, rubric, k)| ==>
      Position(BreakdownUpTo(text, rubric, k)[i].category) < Position(BreakdownUpTo(text, rubric, k)[j].category)
  {
    if k > 0 {
      OrderedUpTo(text, rubric, k - 1);
      EntriesUpTo(text, rubric, k - 1);
      var pre := BreakdownUpTo(text, rubric, k - 1);
      var b := BreakdownUpTo(text, rubric, k);
      assert b == pre + BranchEntry(text, rubric, k - 1);
      assert forall i :: 0 <= i < |pre| ==> b[i] == pre[i];
      forall i, j | 0 <= i < j < |b|
        ensures Position(b[i].category) < Position(b[j].category)
      {
        assert b[i] == pre[i];
        if j < |pre| {
          assert b[j] == pre[j];
        } else {
          assert b[j].category == Branch(k - 1);
        }
      }
    }
  }

  /** The breakdown lists exactly the rubric's categories that have a branch,
      in the order of the branches and so each once, each with the points of
      its rule; a rubric category without a branch earns nothing. */
  lemma BreakdownFollowsRubric(text: string, rubric: map<Category, nat>)
    ensures forall i :: 0 <= i < |Breakdown(text, rubric)| ==>
      (var e := Breakdown(text, rubric)[i];
       e.category in rubric && e.category != Internships
       && e.points == Points(RuleOf(e.category), rubric[e.category], text))
    ensures forall c :: c in rubric && c != Internships ==> c in Categories(Breakdown(text, rubric))
    ensures forall i, j :: 0 <= i < j < |Breakdown(text, rubric)| ==>
      Position(Breakdown(text, rubric)[i].category) < Position(Breakdown(text, rubric)[j].category)
  {
    EntriesUpTo(text, rubric, 12);
    CompleteUpTo(text, rubric, 12);
    OrderedUpTo(text, rubric, 12);
  }

  /** An unknown domain gets the empty rubric, hence no entries and no points. */
  lemma UnknownDomainScoresNothing(text: string, domain: string)
    requires domain !in DomainLabels
    ensures ScoreAndExtractSkills(text, domain).breakdown == []
    ensures ScoreAndExtractSkills(text, domain).totalScore == 0
  {
    var empty: map<Category, nat> := map[];
    assert DomainLabels[0] == ComputerScience && DomainLabels[3] == CivilEngineer && DomainLabels[6] == Lawyer;
    assert DomainLabels[1] == "Mechanical Engineer" && DomainLabels[2] == "Electrical Engineer";
    assert DomainLabels[4] == "Biotech / Pharma" && DomainLabels[5] == "Business Analyst / Manager";
    assert DomainLabels[7] == "Doctor / Medical Professional";
    assert RubricFor(domain) == empty;
    var b := Breakdown(text, empty);
    BreakdownFollowsRubric(text, empty);
  }

  /** The categories of the first `k` branches that the rubric lists. */
  function KeptUpTo(rubric: map<Category, nat>, k: nat): seq<Category>
    requires k <= 12
  {
    if k == 0 then [] else KeptUpTo(rubric, k - 1) + (if Branch(k - 1) in rubric then [Branch(k - 1)] else [])
  }

  lemma {:induction false} CategoriesUpTo(text: string, rubric: map<Category, nat>, k: nat)
    requires k <= 12
    ensures Categories(BreakdownUpTo(text, rubric, k)) == KeptUpTo(rubric, k)
  {
    if k > 0 {
      CategoriesUpTo(text, rubric, k - 1);
      var pre := BreakdownUpTo(text, rubric, k - 1);
      var b := BreakdownUpTo(text, rubric, k);
      assert b == pre + BranchEntry(text, rubric, k - 1);
      assert forall i :: 0 <= i < |pre| ==> Categories(b)[i] == Categories(pre)[i];
    }
  }

  /** The lawyer's breakdown has four categories: its rubric's `Internships`
      has no branch in the scorer. */
  lemma LawyerCategories(text: string)
    ensures Categories(ScoreAndExtractSkills(text, Lawyer).breakdown)
      == [LegalExperience, LegalSkills, MootsCertifications, Formatting]
  {
    assert RubricFor(Lawyer) == LawyerRubric;
    CategoriesUpTo(text, LawyerRubric, 12);
    LawyerKept();
  }

  lemma LawyerKept()
    ensures KeptUpTo(LawyerRubric, 12) == [LegalExperience, LegalSkills, MootsCertifications, Formatting]
  {
  }

  // ---------------------------------------------------------------------------
  // How many points
  // ---------------------------------------------------------------------------

  /** Capped categories never exceed their weight, trigger categories earn
      their weight or the floor, and formatting earns its weight. */
  lemma PointsBounds(rule: Rule, weight: nat, text: string)
    ensures !rule.Trigger? ==> Points(rule, weight, text) <= weight
    ensures rule.Trigger? ==> Points(rule, weight, text) == weight || Points(rule, weight, text) == Floor
    ensures rule.Baseline? ==> Points(rule, weight, text) == weight
  {
  }

  /** A trigger category earns its full weight exactly when one of its
      phrases occurs. */
  lemma TriggerIffPhrase(phrases: seq<string>, weight: nat, text: string)
    requires weight != Floor
    ensures Points(Trigger(phrases), weight, text) == weight <==> exists p :: p in phrases && Contains(text, p)
  {
  }

  /** The weight the rubric gives category `c` (0 when it lacks it). */
  function WeightOf(rubric: map<Category, nat>, c: Category): nat {
    if c in rubric then rubric[c] else 0
  }

  /** The sum of the weights of the categories of the first `k` branches. */
  function WeightUpTo(rubric: map<Category, nat>, k: nat): nat
    requires k <= 12
  {
    if k == 0 then 0 else WeightUpTo(rubric, k - 1) + WeightOf(rubric, Branch(k - 1))
  }

  lemma {:induction false} TotalAppend(a: seq<Entry>, b: seq<Entry>)
    ensures Total(a + b) == Total(a) + Total(b)
    decreases |a|
  {
    if a == [] {
      assert a + b == b;
    } else {
      assert (a + b)[1..] == a[1..] + b;
      TotalAppend(a[1..], b);
    }
  }

  /** When every weight is at least the floor, the points after `k` branches
      are at most the weights of the categories those branches test. */
  lemma {:induction false} TotalWithinWeights(text: string, rubric: map<Category, nat>, k: nat)
    requires k <= 12
    requires AboveFloor(rubric)
    ensures Total(BreakdownUpTo(text, rubric, k)) <= WeightUpTo(rubric, k)
  {
    if k > 0 {
      TotalWithinWeights(text, rubric, k - 1);
      TotalAppend(BreakdownUpTo(text, rubric, k - 1), BranchEntry(text, rubric, k - 1));
      var c := Branch(k - 1);
      if c in rubric {
        PointsBounds(RuleOf(c), rubric[c], text);
        assert Total([Entry(c, Points(RuleOf(c), rubric[c], text))]) == Points(RuleOf(c), rubric[c], text);
      }
    }
  }

  /** No weight of the rubric is below the floor. */
  predicate AboveFloor(rubric: map<Category, nat>) {
    forall c :: c in rubric ==> rubric[c] >= Floor
  }

  /** The weight of the categories the scorer has a branch for. */
  function BranchWeight(rubric: map<Category, nat>): nat {
    WeightOf(rubric, Skills) + WeightOf(rubric, CadSkills) + WeightOf(rubric, CircuitSkills)
    + WeightOf(rubric, Projects) + WeightOf(rubric, Certifications) + WeightOf(rubric, Experience)
    + WeightOf(rubric, Internship) + WeightOf(rubric, Research) + WeightOf(rubric, LegalExperience)
    + WeightOf(rubric, LegalSkills) + WeightOf(rubric, MootsCertifications) + WeightOf(rubric, Formatting)
  }

  lemma WeightOfAllBranches(rubric: map<Category, nat>)
    ensures WeightUpTo(rubric, 12) == BranchWeight(rubric)
  {
    assert WeightUpTo(rubric, 1) == WeightOf(rubric, Skills);
    assert WeightUpTo(rubric, 2) == WeightUpTo(rubric, 1) + WeightOf(rubric, CadSkills);
    assert WeightUpTo(rubric, 3) == WeightUpTo(rubric, 2) + WeightOf(rubric, CircuitSkills);
    assert WeightUpTo(rubric, 4) == WeightUpTo(rubric, 3) + WeightOf(rubric, Projects);
    assert WeightUpTo(rubric, 5) == WeightUpTo(rubric, 4) + WeightOf(rubric, Certifications);
    assert WeightUpTo(rubric, 6) == WeightUpTo(rubric, 5) + WeightOf(rubric, Experience);
    assert WeightUpTo(rubric, 7) == WeightUpTo(rubric, 6) + WeightOf(rubric, Internship);
    assert WeightUpTo(rubric, 8) == WeightUpTo(rubric, 7) + WeightOf(rubric, Research);
    assert WeightUpTo(rubric, 9) == WeightUpTo(rubric, 8) + WeightOf(rubric, LegalExperience);
    assert WeightUpTo(rubric, 10) == WeightUpTo(rubric, 9) + WeightOf(rubric, LegalSkills);
    assert WeightUpTo(rubric, 11) == WeightUpTo(rubric, 10) + WeightOf(rubric, MootsCertifications);
    assert WeightUpTo(rubric, 12) == WeightUpTo(rubric, 11) + WeightOf(rubric, Formatting);
  }

  // The categories with a branch weigh 100 in every rubric but the lawyer's.
  lemma DoctorWeighs() ensures AboveFloor(DoctorRubric) && BranchWeight(DoctorRubric) == 100 {}
  lemma ComputerScienceWeighs()
    ensures AboveFloor(ComputerScienceRubric) && BranchWeight(ComputerScienceRubric) == 100 {}
  /** The lawyer's `Internships` has no branch, so its 10 points are never given. */
  lemma LawyerWeighs() ensures AboveFloor(LawyerRubric) && BranchWeight(LawyerRubric) == 90 {}
  lemma MechanicalWeighs() ensures AboveFloor(MechanicalRubric) && BranchWeight(MechanicalRubric) == 100 {}
  lemma CivilWeighs() ensures AboveFloor(CivilRubric) && BranchWeight(CivilRubric) == 100 {}
  lemma ElectricalWeighs() ensures AboveFloor(ElectricalRubric) && BranchWeight(ElectricalRubric) == 100 {}
  lemma BusinessWeighs() ensures AboveFloor(BusinessRubric) && BranchWeight(BusinessRubric) == 100 {}
  lemma BiotechWeighs() ensures AboveFloor(BiotechRubric) && BranchWeight(BiotechRubric) == 100 {}

  lemma {:induction false} EmptyRubricWeighsNothing(k: nat)
    requires k <= 12
    ensures WeightUpTo(map[], k) == 0
  {
    if k > 0 {
      EmptyRubricWeighsNothing(k - 1);
    }
  }

  /** The rubric of any domain string weighs at most 100, and 90 for the
      lawyer, with no weight below the floor. */
  lemma RubricBound(domain: string)
    ensures AboveFloor(RubricFor(domain))
    ensures WeightUpTo(RubricFor(domain), 12) <= if domain == Lawyer then 90 else 100
  {
    WeightOfAllBranches(RubricFor(domain));
    if domain == "Doctor / Medical Professional" {
      DoctorWeighs();
    } else if domain == ComputerScience {
      ComputerScienceWeighs();
    } else if domain == Lawyer {
      LawyerWeighs();
    } else if domain == "Mechanical Engineer" {
      MechanicalWeighs();
    } else if domain == CivilEngineer {
      CivilWeighs();
    } else if domain == "Electrical Engineer" {
      ElectricalWeighs();
    } else if domain == "Business Analyst / Manager" {
      BusinessWeighs();
    } else if domain == "Biotech / Pharma" {
      BiotechWeighs();
    } else {
      EmptyRubricWeighsNothing(12);
    }
  }

  /** The total score never exceeds 100, and 90 for the lawyer. */
  lemma TotalAtMostHundred(text: string, domain: string)
    ensures Total(Breakdown(text, RubricFor(domain))) <= 100
    ensures domain == Lawyer ==> Total(Breakdown(text, RubricFor(domain))) <= 90
  {
    RubricBound(domain);
    TotalWithinWeights(text, RubricFor(domain), 12);
  }

  lemma ComputerScienceKept()
    ensures KeptUpTo(ComputerScienceRubric, 12) == [Skills, Projects, Certifications, Experience, Formatting]
  {
  }

  lemma ComputerScienceCategories(text: string)
    ensures Categories(Breakdown(text, ComputerScienceRubric)) == [Skills, Projects, Certifications, Experience, Formatting]
  {
    CategoriesUpTo(text, ComputerScienceRubric, 12);
    ComputerScienceKept();
  }

  lemma ComputerScienceRules(text: string)
    ensures Breakdown(text, ComputerScienceRubric)
      == [Entry(Skills, Points(RuleOf(Skills), 30, text)),
          Entry(Projects, Points(RuleOf(Projects), 25, text)),
          Entry(Certifications, Points(RuleOf(Certifications), 15, text)),
          Entry(Experience, Points(RuleOf(Experience), 10, text)),
          Entry(Formatting, 20)]
  {
    var b := Breakdown(text, ComputerScienceRubric);
    ComputerScienceCategories(text);
    EntriesUpTo(text, ComputerScienceRubric, 12);
    var cs := Categories(b);
    assert |b| == |cs| == 5;
    assert cs[0] == b[0].category && cs[1] == b[1].category && cs[2] == b[2].category;
    assert cs[3] == b[3].category && cs[4] == b[4].category;
    assert b[0].category == Skills && b[1].category == Projects && b[2].category == Certifications;
    assert b[3].category == Experience && b[4].category == Formatting;
  }

  /** The Computer Science breakdown of any text: skills capped at 30, the
      three triggers at their weight or the floor, formatting at 20. */
  lemma ComputerScienceBreakdown(text: string)
    ensures Breakdown(text, ComputerScienceRubric)
      == [Entry(Skills, Min(30, 2 * |Presence(text)|)),
          Entry(Projects, if Contains(text, "project") then 25 else Floor),
          Entry(Certifications, if Contains(text, "certificate") then 15 else Floor),
          Entry(Experience, if Contains(text, "experience") then 10 else Floor),
          Entry(Formatting, 20)]
  {
    ComputerScienceRules(text);
    TriggerOnePhrase("project", 25, text);
    TriggerOnePhrase("certificate", 15, text);
    TriggerOnePhrase("experience", 10, text);
  }

  lemma TriggerOnePhrase(p: string, weight: nat, text: string)
    ensures Points(Trigger([p]), weight, text) == if Contains(text, p) then weight else Floor
  {
    assert p in [p];
  }

  /** A text with no vocabulary term and none of the three trigger phrases
      scores 35 for Computer Science: the floor three times and formatting. */
  lemma NoEvidenceComputerScience(text: string)
    requires Presence(text) == []
    requires !Contains(text, "project") && !Contains(text, "certificate") && !Contains(text, "experience")
    ensures ScoreAndExtractSkills(text, ComputerScience).totalScore == 35
  {
    assert RubricFor(ComputerScience) == ComputerScienceRubric;
    ComputerScienceBreakdown(text);
    var b := ScoreAndExtractSkills(text, ComputerScience).breakdown;
    assert Total(b[4..]) == 20;
    assert Total(b[3..]) == 25;
    assert Total(b[2..]) == 30;
    assert Total(b[1..]) == 35;
  }

  lemma ElectricalKept()
    ensures KeptUpTo(ElectricalRubric, 12) == [CircuitSkills, Projects, Certifications, Internship, Formatting]
  {
  }

  /** The first entry of an electrical breakdown: five points per occurrence
      of a circuit term, capped at 25. */
  lemma CircuitEntry(text: string)
    ensures |Breakdown(text, ElectricalRubric)| == 5
    ensures Breakdown(text, ElectricalRubric)[0]
      == Entry(CircuitSkills, Min(25, 5 * SumCounts(text, CircuitTerms)))
  {
    var b := Breakdown(text, ElectricalRubric);
    CategoriesUpTo(text, ElectricalRubric, 12);
    ElectricalKept();
    EntriesUpTo(text, ElectricalRubric, 12);
    assert Categories(b)[0] == b[0].category;
  }

  lemma CircuitNotInEngineering()
    ensures "circuit" !in ComputingSkills && "circuit" !in MechanicalSkills
    ensures "circuit" !in ElectricalSkills && "circuit" !in CivilSkills
  {
  }

  lemma CircuitNotInOtherFields()
    ensures "circuit" !in MedicalSkills && "circuit" !in BiotechSkills
    ensures "circuit" !in BusinessSkills && "circuit" !in LawSkills
  {
  }

  lemma CircuitCountsOnce()
    ensures SumCounts("circuit", CircuitTerms) == 1
  {
    assert Count("circuit", "circuit") == 1 + Count("", "circuit");
    FirstCharAbsent("circuit", "vhdl");
    FirstCharAbsent("circuit", "simulink");
    assert CircuitTerms[1..][1..][1..] == [];
  }

  /** `circuit_skills` also counts `circuit`, which is not a vocabulary term:
      a text with that word alone earns the category five points. */
  lemma CircuitOutsideVocabulary()
    ensures "circuit" !in SkillKeywords
    ensures Breakdown("circuit", ElectricalRubric)[0] == Entry(CircuitSkills, 5)
  {
    CircuitNotInEngineering();
    CircuitNotInOtherFields();
    CircuitEntry("circuit");
    CircuitCountsOnce();
  }

  /** The total is at least any one entry's points. */
  lemma {:induction false} TotalAtLeastEntry(entries: seq<Entry>, i: int)
    requires 0 <= i < |entries|
    ensures Total(entries) >= entries[i].points
  {
    if i > 0 {
      TotalAtLeastEntry(entries[1..], i - 1);
    }
  }

  /** Every domain label's rubric gives formatting 20 points. */
  lemma FormattingTwenty(domain: string)
    requires domain in DomainLabels
    ensures Formatting in RubricFor(domain) && RubricFor(domain)[Formatting] == 20
  {
  }

  /** For every domain label, formatting earns its 20 points unconditionally,
      so no such resume scores below 20. */
  lemma FormattingAlwaysScored(text: string, domain: string)
    requires domain in DomainLabels
    ensures Entry(Formatting, 20) in ScoreAndExtractSkills(text, domain).breakdown
    ensures ScoreAndExtractSkills(text, domain).totalScore >= 20
  {
    var rubric := RubricFor(domain);
    FormattingTwenty(domain);
    BreakdownFollowsRubric(text, rubric);
    var b := Breakdown(text, rubric);
    var i :| 0 <= i < |b| && Categories(b)[i] == Formatting;
    assert b[i] == Entry(Formatting, 20);
    TotalAtLeastEntry(b, i);
  }
}
