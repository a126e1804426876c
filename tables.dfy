/** The parser's fixed configuration (ResumeParser.py lines 8-119): the skill
    vocabulary, the keyword set of each domain in the order the predictor
    visits them, and the scoring rubric of each domain. */
module Tables {

  /** `SKILL_KEYWORDS`, one constant per group of the source's list. */
  const ComputingSkills: seq<string> := [
    "python", "java", "c++", "machine learning", "data science", "html", "css", "javascript",
    "react", "sql", "mysql", "aws", "azure", "linux"]
  const MechanicalSkills: seq<string> := [
    "cad", "solidworks", "ansys", "autocad", "catia", "thermodynamics", "fluid mechanics",
    "hvac", "cam", "fea", "mechanical design", "mechatronics"]
  const ElectricalSkills: seq<string> := [
    "embedded systems", "arduino", "raspberry pi", "matlab", "circuit design", "verilog",
    "vhdl", "power systems", "signal processing", "simulink", "proteus", "electronics"]
  const CivilSkills: seq<string> := [
    "staad pro", "etabs", "autocad civil", "revit", "structural design", "geotechnical",
    "transportation engineering", "construction planning", "civil 3d", "site engineering"]
  const MedicalSkills: seq<string> := [
    "mbbs", "md", "internship", "residency", "research", "clinical", "medical practice",
    "surgery", "diagnosis", "pharmacology", "treatment", "hospital"]
  const BiotechSkills: seq<string> := [
    "molecular biology", "cell culture", "pcr", "elisa", "biochemistry", "genomics", "proteomics",
    "clinical trials", "drug discovery"]
  const BusinessSkills: seq<string> := [
    "finance", "marketing", "excel", "data analysis", "business analysis", "project management",
    "erp", "sap", "leadership", "communication", "strategic planning", "crm", "agile", "scrum"]
  const LawSkills: seq<string> := [
    "legal research", "case law", "litigation", "corporate law", "contract law",
    "intellectual property", "ip law", "civil law", "criminal law", "constitutional law",
    "legal writing", "drafting", "arbitration", "mediation", "compliance", "moot court",
    "legal documentation", "legal advice", "legal analysis", "court procedure", "lawyer",
    "attorney", "barrister", "solicitor"]

  /** `SKILL_KEYWORDS`: every term the matcher looks for, in this order. */
  const SkillKeywords: seq<string> :=
    ComputingSkills + MechanicalSkills + ElectricalSkills + CivilSkills
    + MedicalSkills + BiotechSkills + BusinessSkills + LawSkills

  /** One entry of `DOMAIN_ROLES`. The keywords are kept in the order the
      source writes them; the predictor only uses them as a set. */
  datatype Domain = Domain(name: string, keywords: seq<string>) {
    function KeywordSet(): set<string> {
      set k | k in keywords
    }
  }

  const ComputerScience := "Computer Science"
  const CivilEngineer := "Civil Engineer"
  const Lawyer := "Lawyer / Legal Professional"

  /** `DOMAIN_ROLES`, in the insertion order of the source's dictionary. */
  const DomainRoles: seq<Domain> := [
    Domain(ComputerScience, ["python", "machine learning", "java", "sql", "web development", "aws"]),
    Domain("Mechanical Engineer", ["solidworks", "autocad", "thermodynamics", "hvac", "fea", "cam"]),
    Domain("Electrical Engineer", ["matlab", "arduino", "circuit", "simulink", "vhdl", "electronics"]),
    Domain(CivilEngineer, ["staad pro", "etabs", "revit", "civil 3d", "site engineering", "autocad civil"]),
    Domain("Biotech / Pharma", ["cell culture", "pcr", "genomics", "clinical trials"]),
    Domain("Business Analyst / Manager", ["finance", "marketing", "project management", "business analysis"]),
    Domain(Lawyer, [
      "litigation", "contract law", "corporate law", "intellectual property",
      "criminal law", "civil law", "legal research", "legal writing", "arbitration"]),
    Domain("Doctor / Medical Professional", [
      "mbbs", "md", "residency", "clinical", "diagnosis", "surgery", "medical practice", "treatment"])
  ]

  /** The labels of `DOMAIN_ROLES`, in order. */
  const DomainLabels: seq<string> :=
    seq(|DomainRoles|, k requires 0 <= k < |DomainRoles| => DomainRoles[k].name)

  /** The categories a rubric can list; `Key` is the dictionary key the
      source writes for each. */
  datatype Category =
    | Skills | CadSkills | CircuitSkills | Projects | Certifications | Experience
    | Internship | Research | LegalExperience | LegalSkills | MootsCertifications
    | Internships | Formatting
  {
    function Key(): string {
      match this
      case Skills => "skills"
      case CadSkills => "cad_skills"
      case CircuitSkills => "circuit_skills"
      case Projects => "projects"
      case Certifications => "certifications"
      case Experience => "experience"
      case Internship => "internship"
      case Research => "research"
      case LegalExperience => "legal_experience"
      case LegalSkills => "legal_skills"
      case MootsCertifications => "moots_certifications"
      case Internships => "internships"
      case Formatting => "formatting"
    }
  }

  /** Distinct categories have distinct keys, so a breakdown listing each
      category once stands for the source's string-keyed dictionary. */
  lemma KeysDistinct()
    ensures forall a: Category, b: Category :: a != b ==> a.Key() != b.Key()
  {
  }

  /** The rubric of each domain: the most points each category can earn. */
  const DoctorRubric: map<Category, nat> := map[
    Internship := 20, Research := 20, Experience := 20, Skills := 20, Formatting := 20]
  const ComputerScienceRubric: map<Category, nat> := map[
    Skills := 30, Projects := 25, Certifications := 15, Experience := 10, Formatting := 20]
  const LawyerRubric: map<Category, nat> := map[
    LegalExperience := 30, LegalSkills := 25, MootsCertifications := 15,
    Internships := 10, Formatting := 20]
  const MechanicalRubric: map<Category, nat> := map[
    CadSkills := 30, Projects := 25, Certifications := 10, Experience := 15, Formatting := 20]
  const CivilRubric: map<Category, nat> := map[
    CadSkills := 20, Projects := 25, Certifications := 15, Internship := 20, Formatting := 20]
  const ElectricalRubric: map<Category, nat> := map[
    CircuitSkills := 25, Projects := 25, Certifications := 15, Internship := 15, Formatting := 20]
  const BusinessRubric: map<Category, nat> := map[
    Skills := 25, Projects := 20, Certifications := 15, Experience := 20, Formatting := 20]
  const BiotechRubric: map<Category, nat> := map[
    Skills := 25, Projects := 20, Research := 15, Certifications := 20, Formatting := 20]

  /** `SCORE_DISTRIBUTION_BY_DOMAIN.get(domain, {})`: the rubric of a domain
      label, and the empty rubric for any other string. */
  function RubricFor(domain: string): map<Category, nat> {
    if domain == "Doctor / Medical Professional" then DoctorRubric
    else if domain == ComputerScience then ComputerScienceRubric
    else if domain == Lawyer then LawyerRubric
    else if domain == "Mechanical Engineer" then MechanicalRubric
    else if domain == CivilEngineer then CivilRubric
    else if domain == "Electrical Engineer" then ElectricalRubric
    else if domain == "Business Analyst / Manager" then BusinessRubric
    else if domain == "Biotech / Pharma" then BiotechRubric
    else map[]
  }

  /** Eight domains with distinct labels, as the keys of a dictionary are. */
  lemma DistinctLabels()
    ensures |DomainRoles| == |DomainLabels| == 8
    ensures forall i, j :: 0 <= i < j < |DomainLabels| ==> DomainLabels[i] != DomainLabels[j]
  {
  }

  /** Every domain label has a rubric; each rubric scores formatting. */
  lemma EveryLabelHasRubric()
    ensures forall k :: 0 <= k < |DomainLabels| ==> Formatting in RubricFor(DomainLabels[k])
  {
  }

  /** No vocabulary term is empty. */
  lemma VocabularyNonEmpty()
    ensures "" !in SkillKeywords
  {
    EngineeringNonEmpty();
    OtherFieldsNonEmpty();
  }

  lemma EngineeringNonEmpty()
    ensures "" !in ComputingSkills && "" !in MechanicalSkills
    ensures "" !in ElectricalSkills && "" !in CivilSkills
  {
  }

  lemma OtherFieldsNonEmpty()
    ensures "" !in MedicalSkills && "" !in BiotechSkills
    ensures "" !in BusinessSkills && "" !in LawSkills
  {
  }
}
