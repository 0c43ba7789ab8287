/** Transition estimates: how long learning a number of skills takes
    (`estimate_transition_time`), the experience band a professional falls in
    (`categorize_experience_level`) and how hard a move into a domain is
    judged to be (the "Career Switcher" feasibility analysis). */
module Transition {
  import opened Wrappers
  import Text
  import Records
  import Market

  /** One entry of the complexity table: a floor in months and the weeks
      needed per skill. */
  datatype Tier = Tier(months: nat, weeksPerSkill: nat)

  /** The complexity table; any other key is a lookup error. */
  function TimeMap(complexity: string): (r: Option<Tier>)
    ensures r.Some? <==> complexity in {"low", "medium", "high"}
  {
    if complexity == "low" then Some(Tier(3, 4))
    else if complexity == "medium" then Some(Tier(6, 6))
    else if complexity == "high" then Some(Tier(12, 8))
    else None
  }

  datatype TimelineError = KeyError(complexity: string)

  /** `estimate_transition_time(num_skills, complexity)`: the larger of the
      tier's floor and the whole months (four weeks each) the skills take,
      i.e. the least value that is at least the floor and covers every skill
      but a remainder of under a month; an unknown tier is an error. */
  function EstimateTransitionTime(numSkills: int, complexity: string := "medium"): (r: Result<int, TimelineError>)
    ensures r.Failure? <==> TimeMap(complexity).None?
    ensures r.Failure? ==> r.error == KeyError(complexity)
    ensures r.Success? ==>
      var t := TimeMap(complexity).value;
      && r.value >= t.months
      && numSkills * t.weeksPerSkill < 4 * r.value + 4
      && (r.value == t.months || 4 * r.value <= numSkills * t.weeksPerSkill)
  {
    match TimeMap(complexity)
    case None => Failure(KeyError(complexity))
    case Some(t) =>
      var weeks := numSkills * t.weeksPerSkill;
      // int() truncates the quotient, which is positive whenever it wins
      Success(if weeks > 4 * t.months then weeks / 4 else t.months)
  }

  /** More skills never take less time. */
  lemma TransitionTimeMonotone(n1: int, n2: int, complexity: string)
    requires n1 <= n2
    requires TimeMap(complexity).Some?
    ensures EstimateTransitionTime(n1, complexity).value <= EstimateTransitionTime(n2, complexity).value
  {
  }

  /** A harder tier never takes less time for the same skills. */
  lemma TransitionTimeTierMonotone(n: int)
    ensures EstimateTransitionTime(n, "low").value <= EstimateTransitionTime(n, "medium").value
    ensures EstimateTransitionTime(n, "medium").value <= EstimateTransitionTime(n, "high").value
  {
  }

  lemma TransitionTimeExamples()
    ensures EstimateTransitionTime(0, "low") == Success(3)
    ensures EstimateTransitionTime(5) == Success(7)
    ensures EstimateTransitionTime(20, "high") == Success(40)
    ensures EstimateTransitionTime(3, "extreme") == Failure(KeyError("extreme"))
  {
  }

  /** The four experience bands, in increasing order. */
  datatype ExperienceLevel = EntryLevel | EarlyCareer | MidCareer | Senior

  function Label(level: ExperienceLevel): string {
    match level
    case EntryLevel => "Entry Level (0-2 years)"
    case EarlyCareer => "Early Career (2-5 years)"
    case MidCareer => "Mid Career (5-10 years)"
    case Senior => "Senior (10+ years)"
  }

  function Rank(level: ExperienceLevel): nat {
    match level
    case EntryLevel => 0
    case EarlyCareer => 1
    case MidCareer => 2
    case Senior => 3
  }

  /** `categorize_experience_level(years)`: the band whose half-open range
      [0,2), [2,5), [5,10) or [10,∞) contains the years (fewer than two,
      negative ones included, is entry level). */
  function CategorizeExperienceLevel(years: real): (r: ExperienceLevel)
    ensures r == EntryLevel <==> years < 2.0
    ensures r == EarlyCareer <==> 2.0 <= years < 5.0
    ensures r == MidCareer <==> 5.0 <= years < 10.0
    ensures r == Senior <==> 10.0 <= years
  {
    if years < 2.0 then EntryLevel
    else if years < 5.0 then EarlyCareer
    else if years < 10.0 then MidCareer
    else Senior
  }

  /** More experience never puts a professional in a lower band. */
  lemma ExperienceLevelMonotone(y1: real, y2: real)
    requires y1 <= y2
    ensures Rank(CategorizeExperienceLevel(y1)) <= Rank(CategorizeExperienceLevel(y2))
  {
  }

  /** The labels of distinct bands differ. */
  lemma LabelInjective(a: ExperienceLevel, b: ExperienceLevel)
    requires Label(a) == Label(b)
    ensures a == b
  {
  }

  /** The difficulty verdicts, from easiest to hardest. */
  datatype Difficulty = LowModerate | Moderate | Challenging

  function DifficultyLabel(d: Difficulty): string {
    match d
    case LowModerate => "Low-Moderate"
    case Moderate => "Moderate"
    case Challenging => "Challenging"
  }

  function Ease(d: Difficulty): nat {
    match d
    case Challenging => 0
    case Moderate => 1
    case LowModerate => 2
  }

  /** The feasibility verdict: "Moderate" when no posting title mentions the
      target domain; otherwise the professional's years compared with half
      and with three tenths of the mean experience those postings ask for. */
  function TransitionDifficulty(df: seq<Records.Row>, targetDomain: string, currentYears: int): (r: Difficulty)
    requires Text.PlainKeyword(targetDomain)
    requires Market.ExperienceNumeric(df)
    ensures Records.FilterByTitle(df, targetDomain) == [] ==> r == Moderate
    ensures Records.FilterByTitle(df, targetDomain) != [] ==>
      var domainRoles := Market.RoleRows(df, targetDomain);
      var avg := Market.Mean(Market.Years(domainRoles));
      && (r == LowModerate <==> currentYears as real >= avg * 0.5)
      && (r == Moderate <==> avg * 0.3 <= currentYears as real < avg * 0.5)
      && (r == Challenging <==> currentYears as real < avg * 0.5 && currentYears as real < avg * 0.3)
  {
    var domainRoles := Records.FilterByTitle(df, targetDomain);
    if |domainRoles| == 0 then Moderate
    else
      Market.ExperienceNumericSub(df, domainRoles);
      var avg := Market.Mean(Market.Years(domainRoles));
      if currentYears as real >= avg * 0.5 then LowModerate
      else if currentYears as real >= avg * 0.3 then Moderate
      else Challenging
  }

  /** More years never make the verdict harder. */
  lemma DifficultyMonotone(df: seq<Records.Row>, targetDomain: string, y1: int, y2: int)
    requires Text.PlainKeyword(targetDomain)
    requires Market.ExperienceNumeric(df)
    requires y1 <= y2
    ensures Ease(TransitionDifficulty(df, targetDomain, y1)) <= Ease(TransitionDifficulty(df, targetDomain, y2))
  {
  }
}
