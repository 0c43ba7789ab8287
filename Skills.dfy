/** Skill extraction (`SkillsAnalyzer` in utilities.py and
    `extract_skills_from_title` in dashboard.py): the vocabulary entries that
    occur, case-insensitively, as substrings of a text. One extractor serves
    both vocabularies. A short entry inside a longer one is reported with it
    ("Java" with "JavaScript"): the heuristic over-matches by design. */
module Skills {
  import opened Wrappers
  import Text
  import Seqs
  import Records
  import Counting

  /** `SkillsAnalyzer.SKILLS_DICT`, one constant per category. */
  const ProgrammingLanguages: seq<string> := [
    "Python", "Java", "C++", "C#", "JavaScript", "TypeScript",
    "Ruby", "PHP", "Swift", "Kotlin", "Go", "Rust"]
  const WebTechnologies: seq<string> := [
    "React", "Vue.js", "Angular", "Node.js", "Django", "Flask",
    "Spring Boot", "ASP.NET", "Express.js", "Next.js"]
  const DatabaseAndData: seq<string> := [
    "SQL", "PostgreSQL", "MySQL", "MongoDB", "Redis",
    "Elasticsearch", "Oracle", "Cassandra", "Data Science",
    "Data Analysis", "Analytics", "Tableau", "Power BI"]
  const CloudAndDevOps: seq<string> := [
    "AWS", "Azure", "GCP", "Docker", "Kubernetes",
    "CI/CD", "Jenkins", "GitLab", "GitHub", "DevOps",
    "Infrastructure as Code", "Terraform", "Ansible"]
  const MachineLearningAndAI: seq<string> := [
    "Machine Learning", "Deep Learning", "AI", "TensorFlow",
    "PyTorch", "NLP", "Computer Vision", "Scikit-learn"]
  const MethodsAndFrameworks: seq<string> := [
    "Agile", "Scrum", "Kanban", "Waterfall",
    "REST API", "GraphQL", "Microservices"]
  const LeadershipAndManagement: seq<string> := [
    "Leadership", "Management", "Team Lead", "Technical Lead",
    "Project Management", "Product Management", "Mentoring"]
  const QualityAndTesting: seq<string> := [
    "QA", "SDET", "Test Automation", "Selenium", "Pytest",
    "Unit Testing", "Integration Testing", "Regression Testing"]
  const SystemsAndArchitecture: seq<string> := [
    "System Design", "Microservices", "Architecture",
    "Distributed Systems", "High Availability", "Scalability"]
  const SoftSkills: seq<string> := [
    "Communication", "Problem Solving", "Critical Thinking",
    "Collaboration", "Presentation", "Negotiation", "Adaptability"]

  /** `SkillsAnalyzer.FLAT_SKILLS`: the categories concatenated in order.
      "Microservices" is listed under two categories. */
  const FlatSkills: seq<string> :=
    ProgrammingLanguages + WebTechnologies + DatabaseAndData + CloudAndDevOps
    + MachineLearningAndAI + MethodsAndFrameworks + LeadershipAndManagement
    + QualityAndTesting + SystemsAndArchitecture + SoftSkills

  /** The keyword set of `extract_skills_from_title` (a Python set literal,
      so its iteration order is unspecified; the entries are distinct). */
  const TitleKeywords: seq<string> := [
    "Python", "Java", "SQL", "C++", "C#", "JavaScript", "React", "Node",
    "AWS", "Azure", "GCP", "Docker", "Kubernetes", "Git", "Linux",
    "Machine Learning", "AI", "Data Science", "Analytics", "BI",
    "Tableau", "Power BI", "Salesforce", "SAP", "Oracle",
    "Agile", "Scrum", "Product Management", "Project Management",
    "Leadership", "Management", "Team Lead", "Technical Lead",
    "Frontend", "Backend", "Full Stack", "DevOps", "QA", "SDET"
  ]

  /** Whether a vocabulary entry occurs in an upper-cased text. */
  predicate Mentions(upperText: string, skill: string) {
    Text.Contains(upperText, Text.Upper(skill))
  }

  /** The skills of a text: no skills for a missing text, otherwise exactly
      the vocabulary entries whose upper-case form occurs in the upper-cased
      text. */
  function SkillsIn(text: Option<string>, vocab: seq<string>): set<string> {
    if text.None? then {} else set s | s in vocab && Mentions(Text.Upper(text.value), s)
  }

  /** The union of the skills of several titles. */
  function SkillsOf(titles: seq<Option<string>>, vocab: seq<string>): set<string> {
    if titles == [] then {}
    else SkillsOf(titles[..|titles| - 1], vocab) + SkillsIn(titles[|titles| - 1], vocab)
  }

  /** A skill is in the union exactly when some title mentions it. */
  lemma {:induction false} SkillsOfSpec(titles: seq<Option<string>>, vocab: seq<string>, s: string)
    ensures s in SkillsOf(titles, vocab) <==> exists i | 0 <= i < |titles| :: s in SkillsIn(titles[i], vocab)
  {
    if titles != [] {
      var init := titles[..|titles| - 1];
      SkillsOfSpec(init, vocab, s);
      assert forall i | 0 <= i < |init| :: init[i] == titles[i];
    }
  }

  /** The Counter built by extending one list with each title's skills:
      every title adds each of its skills once. */
  function SkillCounts(titles: seq<Option<string>>, vocab: seq<string>): multiset<string> {
    if titles == [] then multiset{}
    else SkillCounts(titles[..|titles| - 1], vocab) + multiset(SkillsIn(titles[|titles| - 1], vocab))
  }

  /** The count of a skill is the number of titles that mention it, so it
      never exceeds the number of titles, even for an entry listed twice in
      the vocabulary. */
  lemma {:induction false} SkillCountsSpec(titles: seq<Option<string>>, vocab: seq<string>, s: string)
    ensures SkillCounts(titles, vocab)[s]
         == |Seqs.Filter(titles, (t: Option<string>) => s in SkillsIn(t, vocab))|
    ensures SkillCounts(titles, vocab)[s] <= |titles|
  {
    var p := (t: Option<string>) => s in SkillsIn(t, vocab);
    Seqs.FilterSpec(titles, p);
    if titles != [] {
      var init, last := titles[..|titles| - 1], titles[|titles| - 1];
      SkillCountsSpec(init, vocab, s);
      assert titles == init + [last];
      Seqs.FilterAppend(init, [last], p);
      assert Seqs.Filter([last], p) == (if p(last) then [last] else []) + Seqs.Filter([], p);
    }
  }

  /** `list(some_set)`: the elements of s once each, in no particular order. */
  method ListOfSet(s: set<string>) returns (r: seq<string>)
    ensures Seqs.Distinct(r)
    ensures forall x :: x in r <==> x in s
  {
    r := [];
    var rest := s;
    while rest != {}
      invariant Seqs.Distinct(r)
      invariant forall x :: x in r <==> x in s - rest
      invariant rest <= s
      decreases rest
    {
      var x :| x in rest;
      assert x !in r;
      r := r + [x];
      rest := rest - {x};
    }
  }

  /** The extractor: scans the vocabulary, collects the entries found in the
      upper-cased text, then drops duplicates (`list(set(found_skills))`). */
  method ExtractSkills(text: Option<string>, vocab: seq<string>) returns (skills: seq<string>)
    ensures Seqs.Distinct(skills)
    ensures forall s :: s in skills <==> s in SkillsIn(text, vocab)
    ensures text.None? ==> skills == []
  {
    if text.None? {
      return [];
    }
    var upper := Text.Upper(text.value);
    var found: seq<string> := [];
    for i := 0 to |vocab|
      invariant forall s :: s in found <==> s in vocab[..i] && Mentions(upper, s)
    {
      if Mentions(upper, vocab[i]) {
        found := found + [vocab[i]];
      }
      assert vocab[..i + 1] == vocab[..i] + [vocab[i]];
    }
    assert vocab[..|vocab|] == vocab;
    skills := ListOfSet(set s | s in found);
  }

  /** `SkillsAnalyzer.extract_skills`: the extractor over FlatSkills. */
  method ExtractSkillsFromText(text: Option<string>) returns (skills: seq<string>)
    ensures Seqs.Distinct(skills)
    ensures forall s :: s in skills <==> s in SkillsIn(text, FlatSkills)
    ensures text.None? ==> skills == []
    ensures forall s :: s in skills <==>
      text.Some? && s in FlatSkills && Text.Contains(Text.Upper(text.value), Text.Upper(s))
  {
    skills := ExtractSkills(text, FlatSkills);
  }

  /** `extract_skills_from_title`: the extractor over TitleKeywords. */
  method ExtractSkillsFromTitle(title: Option<string>) returns (skills: seq<string>)
    ensures Seqs.Distinct(skills)
    ensures title.None? ==> skills == []
    ensures forall s :: s in skills <==>
      title.Some? && s in TitleKeywords && Text.Contains(Text.Upper(title.value), Text.Upper(s))
  {
    skills := ExtractSkills(title, TitleKeywords);
  }

  /** A set of skills accumulated with `set.update` over several titles. */
  method CollectSkills(titles: seq<Option<string>>, vocab: seq<string>) returns (skills: set<string>)
    ensures skills == SkillsOf(titles, vocab)
    ensures forall s :: s in skills <==> exists i | 0 <= i < |titles| :: s in SkillsIn(titles[i], vocab)
  {
    skills := {};
    for i := 0 to |titles|
      invariant skills == SkillsOf(titles[..i], vocab)
    {
      var found := ExtractSkills(titles[i], vocab);
      skills := skills + set s | s in found;
      assert titles[..i + 1][..i] == titles[..i];
    }
    assert titles[..|titles|] == titles;
    forall s ensures s in skills <==> exists i | 0 <= i < |titles| :: s in SkillsIn(titles[i], vocab) {
      SkillsOfSpec(titles, vocab, s);
    }
  }

  /** A list of skills extended with each title's skills, as a Counter. */
  method CountSkills(titles: seq<Option<string>>, vocab: seq<string>) returns (allSkills: seq<string>)
    ensures multiset(allSkills) == SkillCounts(titles, vocab)
  {
    allSkills := [];
    for i := 0 to |titles|
      invariant multiset(allSkills) == SkillCounts(titles[..i], vocab)
    {
      var found := ExtractSkills(titles[i], vocab);
      Seqs.DistinctMultiset(found);
      assert (set s | s in found) == SkillsIn(titles[i], vocab);
      allSkills := allSkills + found;
      assert titles[..i + 1][..i] == titles[..i];
    }
    assert titles[..|titles|] == titles;
  }

  /** `get_skills_by_role(df, role_keyword, limit)`: the skill Counter over
      the first `limit` titles that contain the keyword. */
  method GetSkillsByRole(df: seq<Records.Row>, roleKeyword: string, limit: int := 50)
    returns (counts: multiset<string>)
    requires Text.PlainKeyword(roleKeyword)
    ensures counts == SkillCounts(Records.Titles(Seqs.Prefix(Records.FilterByTitle(df, roleKeyword), limit)), FlatSkills)
    ensures forall s :: counts[s] <= |Seqs.Prefix(Records.FilterByTitle(df, roleKeyword), limit)|
  {
    var head := Seqs.Prefix(Records.FilterByTitle(df, roleKeyword), limit);
    var allSkills := CountSkills(Records.Titles(head), FlatSkills);
    counts := multiset(allSkills);
    forall s ensures counts[s] <= |head| {
      SkillCountsSpec(Records.Titles(head), FlatSkills, s);
    }
  }

  /** `get_skills_by_category(df, category)`: the ten most common skills over
      the first 100 titles of the category. */
  method GetSkillsByCategory(df: seq<Records.Row>, category: string)
    returns (top: seq<Counting.Tally>)
    ensures Counting.IsTopCounts(
      SkillCounts(Seqs.Prefix(Records.Titles(Records.FilterByCategory(df, category)), 100), FlatSkills), 10, top)
  {
    var titles := Seqs.Prefix(Records.Titles(Records.FilterByCategory(df, category)), 100);
    var allSkills := CountSkills(titles, FlatSkills);
    top := Counting.TopCounts(allSkills, 10);
  }

  /** When one entry's upper-case form contains another's, a text that
      mentions the first also mentions the second. */
  lemma ImpliedSkill(text: Option<string>, vocab: seq<string>, longer: string, shorter: string)
    requires longer in SkillsIn(text, vocab) && shorter in vocab
    requires Text.Contains(Text.Upper(longer), Text.Upper(shorter))
    ensures shorter in SkillsIn(text, vocab)
  {
    Text.ContainsTransitive(Text.Upper(text.value), Text.Upper(longer), Text.Upper(shorter));
  }

  /** "JavaScript" never comes without "Java", and "Power BI" never without
      "BI", in the title extractor's results. */
  lemma TitleKeywordOverlaps(title: Option<string>)
    ensures "JavaScript" in SkillsIn(title, TitleKeywords) ==> "Java" in SkillsIn(title, TitleKeywords)
    ensures "Power BI" in SkillsIn(title, TitleKeywords) ==> "BI" in SkillsIn(title, TitleKeywords)
  {
    assert TitleKeywords[1] == "Java" && TitleKeywords[19] == "BI";
    assert Text.Upper("JavaScript") == "JAVASCRIPT" && Text.Upper("Java") == "JAVA";
    assert Text.OccursAt("JAVASCRIPT", "JAVA", 0);
    assert Text.Upper("Power BI") == "POWER BI" && Text.Upper("BI") == "BI";
    assert Text.OccursAt("POWER BI", "BI", 6);
    if "JavaScript" in SkillsIn(title, TitleKeywords) {
      ImpliedSkill(title, TitleKeywords, "JavaScript", "Java");
    }
    if "Power BI" in SkillsIn(title, TitleKeywords) {
      ImpliedSkill(title, TitleKeywords, "Power BI", "BI");
    }
  }

  /** A title in any casing is matched: "Senior PYTHON Developer" has Python. */
  lemma SeniorPythonExample()
    ensures "Python" in SkillsIn(Some("Senior PYTHON Developer"), FlatSkills)
  {
    var u := Text.Upper("Senior PYTHON Developer");
    assert FlatSkills[0] == ProgrammingLanguages[0] == "Python";
    assert Text.Upper("Python") == "PYTHON";
    assert u[7..13] == "PYTHON";
    assert Text.OccursAt(u, "PYTHON", 7);
  }
}
