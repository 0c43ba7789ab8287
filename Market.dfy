/** Market statistics (`MarketAnalyzer` in utilities.py): the postings that
    match a role keyword or a category, summarised as counts, experience
    figures and frequency tables; `None` when nothing matches. */
module Market {
  import opened Wrappers
  import Text
  import Seqs
  import Records
  import Counting

  /** The experience column holds integers, as it does after normalisation. */
  ghost predicate ExperienceNumeric(df: seq<Records.Row>) {
    forall i | 0 <= i < |df| :: df[i].minimumYearsExperience.IntCell?
  }

  /** The `minimumYearsExperience` column. */
  function Years(df: seq<Records.Row>): (r: seq<int>)
    requires ExperienceNumeric(df)
    ensures |r| == |df| && forall i | 0 <= i < |df| :: r[i] == df[i].minimumYearsExperience.i
  {
    seq(|df|, i requires 0 <= i < |df| => df[i].minimumYearsExperience.i)
  }

  /** Rows taken from a numeric frame have numeric experience too. */
  lemma ExperienceNumericSub(df: seq<Records.Row>, sub: seq<Records.Row>)
    requires ExperienceNumeric(df)
    requires forall i | 0 <= i < |sub| :: sub[i] in df
    ensures ExperienceNumeric(sub)
  {
    forall i | 0 <= i < |sub| ensures sub[i].minimumYearsExperience.IntCell? {
      var j :| 0 <= j < |df| && df[j] == sub[i];
    }
  }

  /** The postings whose title mentions the keyword, with the fact that
      their experience column is numeric too. */
  function RoleRows(df: seq<Records.Row>, roleKeyword: string): (r: seq<Records.Row>)
    requires ExperienceNumeric(df)
    ensures r == Records.FilterByTitle(df, roleKeyword) && ExperienceNumeric(r)
  {
    ExperienceNumericSub(df, Records.FilterByTitle(df, roleKeyword));
    Records.FilterByTitle(df, roleKeyword)
  }

  function Sum(xs: seq<int>): int {
    if xs == [] then 0 else Sum(xs[..|xs| - 1]) + xs[|xs| - 1]
  }

  /** `Series.min()`: an element no greater than any other. */
  function Min(xs: seq<int>): (r: int)
    requires |xs| > 0
    ensures r in xs && forall i | 0 <= i < |xs| :: r <= xs[i]
  {
    if |xs| == 1 then xs[0]
    else
      var m := Min(xs[..|xs| - 1]);
      if xs[|xs| - 1] < m then xs[|xs| - 1] else m
  }

  /** `Series.max()`: an element no smaller than any other. */
  function Max(xs: seq<int>): (r: int)
    requires |xs| > 0
    ensures r in xs && forall i | 0 <= i < |xs| :: xs[i] <= r
  {
    if |xs| == 1 then xs[0]
    else
      var m := Max(xs[..|xs| - 1]);
      if xs[|xs| - 1] > m then xs[|xs| - 1] else m
  }

  /** `Series.mean()` on integers, computed exactly. */
  function Mean(xs: seq<int>): real
    requires |xs| > 0
  {
    Sum(xs) as real / |xs| as real
  }

  lemma {:induction false} SumBounds(xs: seq<int>, lo: int, hi: int)
    requires forall i | 0 <= i < |xs| :: lo <= xs[i] <= hi
    ensures |xs| * lo <= Sum(xs) <= |xs| * hi
  {
    if xs != [] {
      SumBounds(xs[..|xs| - 1], lo, hi);
    }
  }

  /** The mean lies between the minimum and the maximum. */
  lemma MeanBetween(xs: seq<int>)
    requires |xs| > 0
    ensures Min(xs) as real <= Mean(xs) <= Max(xs) as real
  {
    var lo, hi := Min(xs), Max(xs);
    SumBounds(xs, lo, hi);
    MeanOfBounds(|xs|, lo, Sum(xs), hi);
  }

  lemma MeanOfBounds(n: int, lo: int, s: int, hi: int)
    requires n > 0 && n * lo <= s <= n * hi
    ensures lo as real <= s as real / n as real <= hi as real
  {
    IntToReal(n, lo, s, hi);
    DivideBounds(s as real, n as real, lo as real, hi as real);
  }

  lemma IntToReal(n: int, lo: int, s: int, hi: int)
    requires n * lo <= s <= n * hi
    ensures (n as real) * (lo as real) <= s as real <= (n as real) * (hi as real)
  {
    assert (n * lo) as real == (n as real) * (lo as real);
    assert (n * hi) as real == (n as real) * (hi as real);
  }

  lemma DivideBounds(s: real, n: real, lo: real, hi: real)
    requires n > 0.0 && n * lo <= s <= n * hi
    ensures lo <= s / n <= hi
  {
  }

  /** The experience figures of a non-empty set of postings: the mean lies
      between the minimum and the maximum, which bound every posting and are
      each attained by one. */
  lemma ExperienceSpan(rows: seq<Records.Row>)
    requires |rows| > 0 && ExperienceNumeric(rows)
    ensures Min(Years(rows)) as real <= Mean(Years(rows)) <= Max(Years(rows)) as real
    ensures forall i | 0 <= i < |rows| ::
      Min(Years(rows)) <= rows[i].minimumYearsExperience.i <= Max(Years(rows))
    ensures exists i | 0 <= i < |rows| :: rows[i].minimumYearsExperience.i == Min(Years(rows))
    ensures exists i | 0 <= i < |rows| :: rows[i].minimumYearsExperience.i == Max(Years(rows))
  {
    var years := Years(rows);
    MeanBetween(years);
    var lo :| 0 <= lo < |years| && years[lo] == Min(years);
    var hi :| 0 <= hi < |years| && years[hi] == Max(years);
    assert rows[lo].minimumYearsExperience.i == Min(years);
    assert rows[hi].minimumYearsExperience.i == Max(years);
  }

  /** The values present in a column (value_counts drops missing ones). */
  function Present(column: seq<Option<string>>): (r: seq<string>)
    ensures forall x :: x in r <==> Some(x) in column
    ensures forall x :: multiset(r)[x] == multiset(column)[Some(x)]
  {
    if column == [] then []
    else
      var rest := Present(column[1..]);
      assert column == [column[0]] + column[1..];
      assert multiset(column) == multiset{column[0]} + multiset(column[1..]);
      if column[0].Some? then [column[0].value] + rest else rest
  }

  function Companies(df: seq<Records.Row>): seq<Option<string>> {
    seq(|df|, i requires 0 <= i < |df| => df[i].postedCompanyName)
  }

  function Statuses(df: seq<Records.Row>): seq<Option<string>> {
    seq(|df|, i requires 0 <= i < |df| => df[i].statusJobStatus)
  }

  function PositionLevels(df: seq<Records.Row>): seq<Option<string>> {
    seq(|df|, i requires 0 <= i < |df| => df[i].positionLevels)
  }

  function EmploymentTypes(df: seq<Records.Row>): seq<Option<string>> {
    seq(|df|, i requires 0 <= i < |df| => df[i].employmentTypes)
  }

  /** The statistics of `get_role_stats` that the model keeps (the salary
      figures are float aggregates and are not modelled). */
  datatype RoleStats = RoleStats(
    count: nat,
    minExperience: int,
    avgExperience: real,
    maxExperience: int,
    topCompanies: seq<Counting.Tally>,
    jobStatusDist: multiset<string>)

  /** The statistics of `get_category_stats` that the model keeps. */
  datatype CategoryStats = CategoryStats(
    count: nat,
    avgExperience: real,
    positionLevels: multiset<string>,
    employmentTypes: multiset<string>)

  /** What `get_role_stats` reports about the postings that match: their
      number, their least, mean and greatest required experience (each
      bound attained by a posting and bounding all of them), the five most
      frequent companies and the distribution of job statuses. */
  ghost predicate IsRoleStats(st: RoleStats, rows: seq<Records.Row>)
    requires ExperienceNumeric(rows)
  {
    && st.count == |rows| > 0
    && st.minExperience as real <= st.avgExperience <= st.maxExperience as real
    && (forall i | 0 <= i < |rows| ::
          st.minExperience <= rows[i].minimumYearsExperience.i <= st.maxExperience)
    && (exists i | 0 <= i < |rows| :: rows[i].minimumYearsExperience.i == st.minExperience)
    && (exists i | 0 <= i < |rows| :: rows[i].minimumYearsExperience.i == st.maxExperience)
    && |st.topCompanies| <= 5
    && Counting.IsTopCounts(multiset(Present(Companies(rows))), 5, st.topCompanies)
    && st.jobStatusDist == multiset(Present(Statuses(rows)))
  }

  /** The statistics of a non-empty set of postings. */
  function RoleStatsOf(rows: seq<Records.Row>): (st: RoleStats)
    requires |rows| > 0 && ExperienceNumeric(rows)
    ensures IsRoleStats(st, rows)
  {
    var years := Years(rows);
    ExperienceSpan(rows);
    RoleStats(
      |rows|,
      Min(years),
      Mean(years),
      Max(years),
      Counting.TopCounts(Present(Companies(rows)), 5),
      multiset(Present(Statuses(rows))))
  }

  /** `get_role_stats(df, role_keyword)`: None exactly when no title contains
      the keyword; otherwise the statistics of the matching postings. */
  function GetRoleStats(df: seq<Records.Row>, roleKeyword: string): (r: Option<RoleStats>)
    requires Text.PlainKeyword(roleKeyword)
    requires ExperienceNumeric(df)
    ensures r.None? <==> forall i | 0 <= i < |df| :: !Text.MatchesKeyword(df[i].title, roleKeyword)
    ensures r.Some? ==> IsRoleStats(r.value, RoleRows(df, roleKeyword))
  {
    var filtered := RoleRows(df, roleKeyword);
    if |filtered| == 0 then None else Some(RoleStatsOf(filtered))
  }

  /** What `get_category_stats` reports about the postings of a category:
      their number, a mean experience between some posting's value and
      another's, and the distributions of position levels and employment
      types. */
  ghost predicate IsCategoryStats(st: CategoryStats, rows: seq<Records.Row>)
    requires ExperienceNumeric(rows)
  {
    && st.count == |rows| > 0
    && (exists i | 0 <= i < |rows| :: rows[i].minimumYearsExperience.i as real <= st.avgExperience)
    && (exists i | 0 <= i < |rows| :: st.avgExperience <= rows[i].minimumYearsExperience.i as real)
    && st.positionLevels == multiset(Present(PositionLevels(rows)))
    && st.employmentTypes == multiset(Present(EmploymentTypes(rows)))
  }

  /** The postings of a category, with the fact that their experience
      column is numeric too. */
  function CategoryRows(df: seq<Records.Row>, category: string): (r: seq<Records.Row>)
    requires ExperienceNumeric(df)
    ensures r == Records.FilterByCategory(df, category) && ExperienceNumeric(r)
  {
    ExperienceNumericSub(df, Records.FilterByCategory(df, category));
    Records.FilterByCategory(df, category)
  }

  /** The category statistics of a non-empty set of postings. */
  function CategoryStatsOf(rows: seq<Records.Row>): (st: CategoryStats)
    requires |rows| > 0 && ExperienceNumeric(rows)
    ensures IsCategoryStats(st, rows)
  {
    ExperienceSpan(rows);
    CategoryStats(
      |rows|,
      Mean(Years(rows)),
      multiset(Present(PositionLevels(rows))),
      multiset(Present(EmploymentTypes(rows))))
  }

  /** `get_category_stats(df, category)`: None exactly when no posting has
      that primary category; otherwise the statistics of those postings. */
  function GetCategoryStats(df: seq<Records.Row>, category: string): (r: Option<CategoryStats>)
    requires ExperienceNumeric(df)
    ensures r.None? <==> forall i | 0 <= i < |df| :: df[i].primaryCategory != Some(category)
    ensures r.Some? ==> IsCategoryStats(r.value, CategoryRows(df, category))
  {
    var filtered := CategoryRows(df, category);
    if |filtered| == 0 then None else Some(CategoryStatsOf(filtered))
  }
}
