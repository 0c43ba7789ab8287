/** Skill matching and gap analysis (`CareerPathAnalyzer` in utilities.py,
    `calculate_skill_match` / `find_skill_gaps` in dashboard.py and the two
    inline gap splits of the dashboard's `main`). All of it is set algebra
    on skill names, case-insensitive except where noted. */
module Matching {
  import opened Wrappers
  import Text
  import Seqs
  import Records
  import Skills

  /** `set([s.lower() for s in xs])`. */
  function LowerSet(xs: seq<string>): set<string> {
    set s | s in xs :: Text.Lower(s)
  }

  lemma LowerSetElements(xs: seq<string>)
    ensures forall s | s in LowerSet(xs) :: Text.IsLower(s)
  {
    forall s | s in LowerSet(xs) ensures Text.IsLower(s) {
      var t :| t in xs && s == Text.Lower(t);
      Text.LowerIsLower(t);
    }
  }

  lemma SubsetCardinality(a: set<string>, b: set<string>)
    requires a <= b
    ensures |a| <= |b|
    ensures |a| == |b| ==> a == b
  {
    assert b == a + (b - a);
    assert a * (b - a) == {};
    if |a| == |b| {
      assert |b - a| == 0;
    }
  }

  /** r is 100 * m / n rounded to the nearest tenth, halves upward: a whole
      number t of tenths with |t/10 - 100m/n| <= 1/20, written without
      division. */
  ghost predicate NearestTenth(r: real, m: nat, n: nat) {
    var t := (r * 10.0).Floor;
    r == t as real / 10.0 && 2 * n * t <= 2000 * m + n < 2 * n * (t + 1)
  }

  /** `round(100 * m / n, 1)`, the exact quotient rounded to the nearest
      tenth (halves upward). */
  function RoundedPercentage(m: nat, n: nat): (r: real)
    requires 0 < n && m <= n
    ensures 0.0 <= r <= 100.0
    ensures m == 0 ==> r == 0.0
    ensures m == n ==> r == 100.0
    ensures NearestTenth(r, m, n)
  {
    var t := (2000 * m + n) / (2 * n);
    Tenths(m, n, t);
    var r := t as real / 10.0;
    assert r * 10.0 == t as real;
    assert (r * 10.0).Floor == t;
    r
  }

  /** The number of tenths of the rounded percentage. */
  lemma Tenths(m: nat, n: nat, t: int)
    requires 0 < n && m <= n && t == (2000 * m + n) / (2 * n)
    ensures 0 <= t <= 1000
    ensures m == 0 ==> t == 0
    ensures m == n ==> t == 1000
    ensures 2 * n * t <= 2000 * m + n < 2 * n * (t + 1)
  {
    var a, b := 2000 * m + n, 2 * n;
    DivFacts(a, b);
    assert b * t <= a < b * (t + 1);
    DivBound(a, b, 1000);
    if m == 0 && t >= 1 {
      MulMonotone(b, 1, t);
      assert false;
    }
    if m == n && t <= 999 {
      MulMonotone(b, t + 1, 1000);
      assert false;
    }
  }

  lemma DivFacts(a: nat, b: nat)
    requires b > 0
    ensures b * (a / b) <= a < b * (a / b + 1)
  {
    var q := a / b;
    assert a == b * q + a % b;
  }

  lemma DivBound(a: nat, b: nat, c: nat)
    requires 0 < b && a < b * (c + 1)
    ensures a / b <= c
  {
    var q := a / b;
    assert a == b * q + a % b;
    if q >= c + 1 {
      MulMonotone(b, c + 1, q);
      assert false;
    }
  }

  lemma MulMonotone(b: nat, x: nat, y: nat)
    requires x <= y
    ensures b * x <= b * y
  {
  }

  /** `CareerPathAnalyzer.calculate_skill_match`: 100 for an empty job list,
      otherwise the share of the job's skills the user has, as a percentage
      rounded to one decimal, both lists compared in lower case. */
  function SkillMatch(userSkills: seq<string>, jobSkills: seq<string>): (r: real)
    ensures 0.0 <= r <= 100.0
    ensures |jobSkills| == 0 ==> r == 100.0
    ensures |jobSkills| > 0 && LowerSet(userSkills) * LowerSet(jobSkills) == {} ==> r == 0.0
    ensures |jobSkills| > 0 && LowerSet(jobSkills) <= LowerSet(userSkills) ==> r == 100.0
    ensures |jobSkills| > 0 ==>
      NearestTenth(r, |LowerSet(userSkills) * LowerSet(jobSkills)|, |LowerSet(jobSkills)|)
  {
    if |jobSkills| == 0 then 100.0
    else
      var user, job := LowerSet(userSkills), LowerSet(jobSkills);
      assert Text.Lower(jobSkills[0]) in job;
      SubsetCardinality(user * job, job);
      assert job <= user ==> user * job == job;
      RoundedPercentage(|user * job|, |job|)
  }

  /** One of three job skills matched gives 33.3. */
  lemma SkillMatchExample()
    ensures SkillMatch(["a"], ["a", "b", "c"]) == 333.0 / 10.0
  {
    assert Text.Lower("a") == "a" && Text.Lower("b") == "b" && Text.Lower("c") == "c";
    assert LowerSet(["a"]) == {"a"};
    assert LowerSet(["a", "b", "c"]) == {"a", "b", "c"};
    assert {"a"} * {"a", "b", "c"} == {"a"};
    assert (2000 * 1 + 3) / (2 * 3) == 333;
  }

  /** With fewer than 2000 distinct job skills rounding cannot blur the two
      ends of the scale: 0 exactly when nothing matches, 100 exactly when
      everything does. */
  lemma {:induction false} SkillMatchExtremes(userSkills: seq<string>, jobSkills: seq<string>)
    requires 0 < |LowerSet(jobSkills)| < 2000
    ensures SkillMatch(userSkills, jobSkills) == 0.0 <==> LowerSet(userSkills) * LowerSet(jobSkills) == {}
    ensures SkillMatch(userSkills, jobSkills) == 100.0 <==> LowerSet(jobSkills) <= LowerSet(userSkills)
  {
    var user, job := LowerSet(userSkills), LowerSet(jobSkills);
    var m, n := |user * job|, |job|;
    assert |jobSkills| > 0;
    SubsetCardinality(user * job, job);
    var r := SkillMatch(userSkills, jobSkills);
    assert r == RoundedPercentage(m, n);
    var t := (r * 10.0).Floor;
    if m > 0 {
      assert 2000 * m + n >= 2 * n;
      assert t >= 1;
    }
    if m < n {
      assert 2000 * m + n <= 2000 * (n - 1) + n < 2000 * n;
      assert t < 1000;
    }
    if m == n {
      SubsetCardinality(user * job, job);
    }
  }

  /** The dashboard's `calculate_skill_match`: tests emptiness after
      lower-casing and takes a weight it never uses. */
  function DashboardSkillMatch(userSkills: seq<string>, jobSkills: seq<string>, weightMatch: real := 0.6): (r: real)
    ensures 0.0 <= r <= 100.0
    ensures |LowerSet(jobSkills)| == 0 ==> r == 100.0
    ensures |LowerSet(jobSkills)| > 0 ==>
      NearestTenth(r, |LowerSet(userSkills) * LowerSet(jobSkills)|, |LowerSet(jobSkills)|)
  {
    var user, job := LowerSet(userSkills), LowerSet(jobSkills);
    if |job| == 0 then 100.0
    else
      SubsetCardinality(user * job, job);
      RoundedPercentage(|user * job|, |job|)
  }

  /** Both match functions give the same value on every input, whatever the
      weight. */
  lemma SkillMatchVariantsAgree(userSkills: seq<string>, jobSkills: seq<string>, weightMatch: real)
    ensures DashboardSkillMatch(userSkills, jobSkills, weightMatch) == SkillMatch(userSkills, jobSkills)
  {
    if |jobSkills| > 0 {
      assert Text.Lower(jobSkills[0]) in LowerSet(jobSkills);
    }
  }

  // ----- identify_gaps: a sorted list of the missing skills -----

  ghost predicate StrictlyAscending(s: seq<string>) {
    forall i, j | 0 <= i < j < |s| :: Text.LexLess(s[i], s[j])
  }

  /** Inserts x into an ascending list unless it is already there. */
  function InsertSorted(x: string, s: seq<string>): seq<string> {
    if s == [] then [x]
    else if x == s[0] then s
    else if Text.LexLess(x, s[0]) then [x] + s
    else [s[0]] + InsertSorted(x, s[1..])
  }

  lemma {:induction false} InsertSortedElements(x: string, s: seq<string>)
    ensures forall y :: y in InsertSorted(x, s) <==> y == x || y in s
  {
    if s != [] && x != s[0] && !Text.LexLess(x, s[0]) {
      InsertSortedElements(x, s[1..]);
      assert s == [s[0]] + s[1..];
    }
  }

  lemma {:induction false} InsertSortedAscending(x: string, s: seq<string>)
    requires StrictlyAscending(s)
    ensures StrictlyAscending(InsertSorted(x, s))
  {
    if s == [] || x == s[0] {
    } else if Text.LexLess(x, s[0]) {
      var r := [x] + s;
      forall i, j | 0 <= i < j < |r| ensures Text.LexLess(r[i], r[j]) {
        if i == 0 && j > 1 {
          Text.LexLessTransitive(x, s[0], s[j - 1]);
        }
      }
    } else {
      Text.LexLessTotal(x, s[0]);
      var tail := InsertSorted(x, s[1..]);
      InsertSortedAscending(x, s[1..]);
      InsertSortedElements(x, s[1..]);
      var r := [s[0]] + tail;
      forall i, j | 0 <= i < j < |r| ensures Text.LexLess(r[i], r[j]) {
        if i == 0 {
          assert r[j] in tail;
          if r[j] != x {
            var k :| 1 <= k < |s| && s[k] == r[j];
          }
        }
      }
    }
  }

  /** `sorted(set(xs))`: the distinct elements in ascending order. */
  function SortedDistinct(xs: seq<string>): (r: seq<string>)
    ensures StrictlyAscending(r)
    ensures forall y :: y in r <==> y in xs
  {
    if xs == [] then []
    else
      var init := xs[..|xs| - 1];
      var rest := SortedDistinct(init);
      InsertSortedAscending(xs[|xs| - 1], rest);
      InsertSortedElements(xs[|xs| - 1], rest);
      assert xs == init + [xs[|xs| - 1]];
      InsertSorted(xs[|xs| - 1], rest)
  }

  /** Two ascending lists with the same elements are the same list: a
      sorted list is determined by the set it holds. */
  lemma {:induction false} AscendingUnique(a: seq<string>, b: seq<string>)
    requires StrictlyAscending(a) && StrictlyAscending(b)
    requires forall y :: y in a <==> y in b
    ensures a == b
  {
    assert a != [] ==> a[0] in b;
    assert b != [] ==> b[0] in a;
    if a != [] && b != [] {
      if a[0] != b[0] {
        var i :| 0 <= i < |a| && a[i] == b[0];
        var j :| 0 <= j < |b| && b[j] == a[0];
        Text.LexLessAsymmetric(a[0], b[0]);
        assert false;
      }
      forall y ensures y in a[1..] <==> y in b[1..] {
        Text.LexLessIrreflexive(a[0]);
        if y in a[1..] {
          var i :| 1 <= i < |a| && a[i] == y;
          assert y != a[0] && y in b;
          var j :| 0 <= j < |b| && b[j] == y;
          assert j != 0;
          assert b[1..][j - 1] == y;
        }
        if y in b[1..] {
          var j :| 1 <= j < |b| && b[j] == y;
          assert y != b[0] && y in a;
          var i :| 0 <= i < |a| && a[i] == y;
          assert i != 0;
          assert a[1..][i - 1] == y;
        }
      }
      AscendingUnique(a[1..], b[1..]);
      assert a == [a[0]] + a[1..] && b == [b[0]] + b[1..];
    }
  }

  function LowerAll(xs: seq<string>): (r: seq<string>)
    ensures |r| == |xs| && forall i | 0 <= i < |xs| :: r[i] == Text.Lower(xs[i])
  {
    seq(|xs|, i requires 0 <= i < |xs| => Text.Lower(xs[i]))
  }

  /** `CareerPathAnalyzer.identify_gaps`: the lower-cased target skills the
      user lacks (compared in lower case), sorted ascending. */
  function IdentifyGaps(userSkills: seq<string>, targetSkills: seq<string>): (r: seq<string>)
    ensures StrictlyAscending(r)
    ensures forall s :: s in r <==> s in LowerSet(targetSkills) && s !in LowerSet(userSkills)
  {
    var user := LowerSet(userSkills);
    var missing := Seqs.Filter(LowerAll(targetSkills), (s: string) => s !in user);
    Seqs.FilterSpec(LowerAll(targetSkills), (s: string) => s !in user);
    forall s | s in LowerSet(targetSkills) && s !in user ensures s in missing {
      var t :| t in targetSkills && s == Text.Lower(t);
      var i :| 0 <= i < |targetSkills| && targetSkills[i] == t;
      assert LowerAll(targetSkills)[i] == s;
    }
    SortedDistinct(missing)
  }

  /** The gaps are lower case, disjoint from the user's skills, and together
      with the skills the user already has they give back the target set. */
  lemma IdentifyGapsPartition(userSkills: seq<string>, targetSkills: seq<string>)
    ensures forall s | s in IdentifyGaps(userSkills, targetSkills) :: Text.IsLower(s)
    ensures (set s | s in IdentifyGaps(userSkills, targetSkills)) * LowerSet(userSkills) == {}
    ensures (set s | s in IdentifyGaps(userSkills, targetSkills)) + (LowerSet(targetSkills) * LowerSet(userSkills))
         == LowerSet(targetSkills)
  {
    LowerSetElements(targetSkills);
  }

  /** The result depends only on the two lower-cased sets: order and
      repetition in the inputs do not matter. */
  lemma IdentifyGapsCanonical(u1: seq<string>, t1: seq<string>, u2: seq<string>, t2: seq<string>)
    requires LowerSet(u1) == LowerSet(u2) && LowerSet(t1) == LowerSet(t2)
    ensures IdentifyGaps(u1, t1) == IdentifyGaps(u2, t2)
  {
    AscendingUnique(IdentifyGaps(u1, t1), IdentifyGaps(u2, t2));
  }

  // ----- find_skill_gaps: gaps against the titles of a set of postings -----

  /** The lower-cased skills extracted from a list of titles. */
  function LowerSkillsOf(titles: seq<Option<string>>): set<string> {
    set s | s in Skills.SkillsOf(titles, Skills.TitleKeywords) :: Text.Lower(s)
  }

  /** `find_skill_gaps`: the lower-cased title skills of the target postings
      that are not among the user's skills (compared in lower case), as a
      list without duplicates in no particular order. */
  method FindSkillGaps(userSkills: seq<string>, targetJobData: seq<Records.Row>) returns (gaps: seq<string>)
    ensures Seqs.Distinct(gaps)
    ensures forall g :: g in gaps <==> g in LowerSkillsOf(Records.Titles(targetJobData)) && g !in LowerSet(userSkills)
    ensures forall g | g in gaps :: Text.IsLower(g)
    ensures forall g | g in gaps :: exists i, k | 0 <= i < |targetJobData| && k in Skills.SkillsIn(targetJobData[i].title, Skills.TitleKeywords) :: g == Text.Lower(k)
  {
    var userSet := LowerSet(userSkills);
    var titles := Records.Titles(targetJobData);
    var jobSkills: set<string> := {};
    for i := 0 to |targetJobData|
      invariant jobSkills == LowerSkillsOf(titles[..i])
    {
      var skills := Skills.ExtractSkills(targetJobData[i].title, Skills.TitleKeywords);
      jobSkills := jobSkills + LowerSet(skills);
      assert titles[..i + 1][..i] == titles[..i];
    }
    assert titles[..|titles|] == titles;
    gaps := Skills.ListOfSet(jobSkills - userSet);
    forall g | g in gaps
      ensures Text.IsLower(g)
      ensures exists i, k | 0 <= i < |targetJobData| && k in Skills.SkillsIn(targetJobData[i].title, Skills.TitleKeywords) :: g == Text.Lower(k)
    {
      var k :| k in Skills.SkillsOf(titles, Skills.TitleKeywords) && g == Text.Lower(k);
      Text.LowerIsLower(k);
      Skills.SkillsOfSpec(titles, Skills.TitleKeywords, k);
    }
  }

  // ----- the inline splits of the dashboard's main -----

  /** The mid-career analysis: skills of the first 20 postings matching the
      current role and of the first 20 matching the target role, then the
      target skills split into those the user lacks and those the user has.
      The comparison with the user's skills is case-sensitive. */
  method MidCareerSkillGap(df: seq<Records.Row>, currentRole: string, targetRole: string, currentSkills: seq<string>)
    returns (currentJobSkills: set<string>, targetJobSkills: set<string>, gaps: set<string>, overlaps: set<string>)
    requires Text.PlainKeyword(currentRole) && Text.PlainKeyword(targetRole)
    ensures currentJobSkills == Skills.SkillsOf(Records.TitleSample(df, currentRole, 20), Skills.TitleKeywords)
    ensures targetJobSkills == Skills.SkillsOf(Records.TitleSample(df, targetRole, 20), Skills.TitleKeywords)
    ensures gaps * overlaps == {} && gaps + overlaps == targetJobSkills
    ensures forall s | s in gaps :: s !in currentSkills
    ensures forall s | s in overlaps :: s in currentSkills
  {
    currentJobSkills := Skills.CollectSkills(Records.TitleSample(df, currentRole, 20), Skills.TitleKeywords);
    targetJobSkills := Skills.CollectSkills(Records.TitleSample(df, targetRole, 20), Skills.TitleKeywords);
    var userSkillsSet := set s | s in currentSkills;
    gaps := targetJobSkills - userSkillsSet;
    overlaps := targetJobSkills * userSkillsSet;
  }

  /** The critical skills listed for each target domain of the career
      switcher. */
  function RequiredSkills(targetDomain: string): (r: seq<string>)
    ensures 3 <= |r| <= 5 && forall i, j | 0 <= i < j < |r| :: r[i] != r[j]
    ensures targetDomain != "Data Science" && targetDomain != "Product Management"
         && targetDomain != "Cloud Engineering" && targetDomain != "Learning & Development (L&D)"
      ==> r == ["Technical Skills", "Domain Knowledge", "Industry Standards"]
  {
    if targetDomain == "Data Science" then
      ["Python", "SQL", "Machine Learning", "Statistics", "Data Visualization"]
    else if targetDomain == "Product Management" then
      ["Product Strategy", "User Research", "Data Analysis", "Communication", "Leadership"]
    else if targetDomain == "Cloud Engineering" then
      ["AWS/Azure/GCP", "DevOps", "Containerization", "Infrastructure as Code", "System Design"]
    else if targetDomain == "Learning & Development (L&D)" then
      ["Instructional Design", "Learning Technologies", "Training Facilitation", "Adult Learning Theory"]
    else
      ["Technical Skills", "Domain Knowledge", "Industry Standards"]
  }

  /** The career switcher's split of the required skills into gaps and
      matches (exact, case-sensitive membership): together they hold every
      required skill exactly as often as the list does, each keeps the
      list's order, and membership decides the side. */
  function SwitcherSplit(requiredSkills: seq<string>, transferableSkills: seq<string>)
    : (r: (seq<string>, seq<string>))
    ensures multiset(r.0) + multiset(r.1) == multiset(requiredSkills)
    ensures Seqs.IsSubsequence(r.0, requiredSkills) && Seqs.IsSubsequence(r.1, requiredSkills)
    ensures forall i | 0 <= i < |r.0| :: r.0[i] !in transferableSkills
    ensures forall i | 0 <= i < |r.1| :: r.1[i] in transferableSkills
  {
    var isGap := (s: string) => s !in transferableSkills;
    var isMatch := (s: string) => s in transferableSkills;
    Seqs.FilterSplit(requiredSkills, isGap, isMatch);
    (Seqs.Filter(requiredSkills, isGap), Seqs.Filter(requiredSkills, isMatch))
  }

  /** A data-science switcher who knows Python and SQL lacks the other three
      required skills, listed in the table's order. */
  lemma DataScienceSwitcherExample()
    ensures SwitcherSplit(RequiredSkills("Data Science"), ["Python", "SQL"])
         == (["Machine Learning", "Statistics", "Data Visualization"], ["Python", "SQL"])
  {
    var t := ["Python", "SQL"];
    var req := RequiredSkills("Data Science");
    var isGap := (s: string) => s !in t;
    var isMatch := (s: string) => s in t;
    assert req == ["Python", "SQL", "Machine Learning", "Statistics", "Data Visualization"];
    assert Seqs.Filter(req, isGap) == ["Machine Learning", "Statistics", "Data Visualization"];
    assert Seqs.Filter(req, isMatch) == ["Python", "SQL"];
  }
}
