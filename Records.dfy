/** Record normalisation (`DataProcessor` in utilities.py): one row of the
    job-postings frame, numeric coercion that never fails, category
    extraction from the loosely quoted JSON `categories` column, and the
    default-filling of title and position level. */
module Records {
  import opened Wrappers
  import Text
  import Seqs

  /** A cell of a numeric column as pandas hands it over: missing (NaN or
      None), a Python int, a finite float, or text together with what
      `float(text)` makes of it (None when it raises). */
  datatype Cell = Missing | IntCell(i: int) | FloatCell(x: real) | TextCell(asFloat: Option<real>)

  /** One element of the parsed `categories` list: a JSON object, with the
      string under its "category" key if it has one, or any other value. */
  datatype Entry = Object(category: Option<string>) | NotObject

  /** The outcome of `json.loads` on the re-quoted `categories` text. */
  datatype Json = ParseError | List(items: seq<Entry>) | NotList

  /** One posting. Field names follow the frame's columns. */
  datatype Row = Row(
    title: Option<string>,
    minimumYearsExperience: Cell,
    salaryMinimum: Cell,
    salaryMaximum: Cell,
    averageSalary: Option<real>,
    categories: Option<string>,
    primaryCategory: Option<string>,
    positionLevels: Option<string>,
    employmentTypes: Option<string>,
    postedCompanyName: Option<string>,
    statusJobStatus: Option<string>)

  const UnknownCategory := "Unknown"
  const UnknownPosition := "Unknown Position"
  const NotSpecified := "Not Specified"

  /** `cat_string.replace("'", '"')`: accept single quotes as JSON quotes. */
  function Requote(s: string): (r: string)
    ensures |r| == |s|
    ensures forall i | 0 <= i < |s| :: r[i] == (if s[i] == '\'' then '"' else s[i])
  {
    seq(|s|, i requires 0 <= i < |s| => if s[i] == '\'' then '"' else s[i])
  }

  /** `extract_category`: the "category" of the first listed entry, or
      "Unknown" whenever the text is missing, does not parse, is not a
      non-empty list, or its first entry has no category. `jsonLoads` stands
      for Python's `json.loads`. */
  function ExtractCategory(cat: Option<string>, jsonLoads: string -> Json): (r: string)
    ensures cat.None? ==> r == UnknownCategory
    ensures cat.Some? && !jsonLoads(Requote(cat.value)).List? ==> r == UnknownCategory
    ensures cat.Some? && jsonLoads(Requote(cat.value)) == List([]) ==> r == UnknownCategory
    ensures cat.Some? && jsonLoads(Requote(cat.value)).List? && |jsonLoads(Requote(cat.value)).items| > 0 ==>
      var first := jsonLoads(Requote(cat.value)).items[0];
      r == (if first.Object? && first.category.Some? then first.category.value else UnknownCategory)
  {
    match cat
    case None => UnknownCategory
    case Some(s) =>
      match jsonLoads(Requote(s))
      case List(items) =>
        if |items| > 0 then
          match items[0]
          case Object(c) => c.GetOr(UnknownCategory)
          case NotObject => UnknownCategory
        else UnknownCategory
      case _ => UnknownCategory
  }

  /** r is x with its fractional part dropped: the integer next to x on
      the side of zero. */
  ghost predicate TowardZero(x: real, r: int) {
    && (x >= 0.0 ==> r as real <= x < r as real + 1.0)
    && (x < 0.0 ==> r as real - 1.0 < x <= r as real)
  }

  /** Python's `int(x)` on a float: truncation toward zero. */
  function Truncate(x: real): (r: int)
    ensures TowardZero(x, r)
  {
    if x >= 0.0 then x.Floor else -((-x).Floor)
  }

  /** `clean_salary`: the value as a float; 0 when missing or unparseable. */
  function CleanSalary(c: Cell): (r: real)
    ensures c.Missing? || c == TextCell(None) ==> r == 0.0
    ensures c.IntCell? ==> r == c.i as real
    ensures c.FloatCell? ==> r == c.x
    ensures c.TextCell? && c.asFloat.Some? ==> r == c.asFloat.value
  {
    match c
    case Missing => 0.0
    case IntCell(i) => i as real
    case FloatCell(x) => x
    case TextCell(p) => p.GetOr(0.0)
  }

  /** `clean_experience`: `int(float(value))`; 0 when missing or unparseable. */
  function CleanExperience(c: Cell): (r: int)
    ensures c.Missing? || c == TextCell(None) ==> r == 0
    ensures c.IntCell? ==> r == c.i
    ensures c.FloatCell? ==> TowardZero(c.x, r)
    ensures c.TextCell? && c.asFloat.Some? ==> TowardZero(c.asFloat.value, r)
  {
    match c
    case Missing => 0
    case IntCell(i) => i
    case FloatCell(x) => Truncate(x)
    case TextCell(p) => if p.Some? then Truncate(p.value) else 0
  }

  /** A row in the shape `process_data` leaves it. */
  ghost predicate Normalized(r: Row) {
    && r.minimumYearsExperience.IntCell?
    && r.salaryMinimum.FloatCell?
    && r.salaryMaximum.FloatCell?
    && r.averageSalary == Some((r.salaryMinimum.x + r.salaryMaximum.x) / 2.0)
    && r.title.Some?
    && r.positionLevels.Some?
    && r.primaryCategory.Some?
  }

  /** `process_data` applied to one row. */
  function ProcessRow(row: Row, jsonLoads: string -> Json): (r: Row)
    ensures Normalized(r)
    ensures r.minimumYearsExperience == IntCell(CleanExperience(row.minimumYearsExperience))
    ensures r.salaryMinimum == FloatCell(CleanSalary(row.salaryMinimum))
    ensures r.salaryMaximum == FloatCell(CleanSalary(row.salaryMaximum))
    ensures r.primaryCategory == Some(ExtractCategory(row.categories, jsonLoads))
    ensures row.title.Some? ==> r.title == row.title
    ensures row.title.None? ==> r.title == Some(UnknownPosition)
    ensures row.positionLevels.Some? ==> r.positionLevels == row.positionLevels
    ensures row.positionLevels.None? ==> r.positionLevels == Some(NotSpecified)
    ensures r.categories == row.categories && r.employmentTypes == row.employmentTypes
    ensures r.postedCompanyName == row.postedCompanyName && r.statusJobStatus == row.statusJobStatus
  {
    var smin := CleanSalary(row.salaryMinimum);
    var smax := CleanSalary(row.salaryMaximum);
    row.(minimumYearsExperience := IntCell(CleanExperience(row.minimumYearsExperience)),
         salaryMinimum := FloatCell(smin),
         salaryMaximum := FloatCell(smax),
         averageSalary := Some((smin + smax) / 2.0),
         primaryCategory := Some(ExtractCategory(row.categories, jsonLoads)),
         positionLevels := Some(row.positionLevels.GetOr(NotSpecified)),
         title := Some(row.title.GetOr(UnknownPosition)))
  }

  /** `process_data`: a new frame, row for row; the input frame is a value
      and is left as it was. */
  function ProcessData(df: seq<Row>, jsonLoads: string -> Json): (r: seq<Row>)
    ensures |r| == |df|
    ensures forall i | 0 <= i < |df| :: r[i] == ProcessRow(df[i], jsonLoads) && Normalized(r[i])
  {
    seq(|df|, i requires 0 <= i < |df| => ProcessRow(df[i], jsonLoads))
  }

  /** Normalising an already normalised frame changes nothing. */
  lemma {:induction false} ProcessDataIdempotent(df: seq<Row>, jsonLoads: string -> Json)
    ensures ProcessData(ProcessData(df, jsonLoads), jsonLoads) == ProcessData(df, jsonLoads)
  {
    var once := ProcessData(df, jsonLoads);
    var twice := ProcessData(once, jsonLoads);
    forall i | 0 <= i < |df| ensures twice[i] == once[i] {
      ProcessRowIdempotent(df[i], jsonLoads);
    }
  }

  lemma ProcessRowIdempotent(row: Row, jsonLoads: string -> Json)
    ensures ProcessRow(ProcessRow(row, jsonLoads), jsonLoads) == ProcessRow(row, jsonLoads)
  {
  }

  /** The boundary examples: "abc" as experience becomes 0, "7.0" becomes 7. */
  lemma CleanExperienceExamples()
    ensures CleanExperience(TextCell(None)) == 0
    ensures CleanExperience(TextCell(Some(7.0))) == 7
    ensures CleanExperience(FloatCell(-1.5)) == -1
    ensures CleanSalary(Missing) == 0.0
  {
  }

  /** `"[{'category': 'Engineering'}]"` yields "Engineering" under any
      `json.loads` that parses the re-quoted text as standard JSON. */
  lemma ExtractCategoryExample(jsonLoads: string -> Json)
    requires jsonLoads("[{\"category\": \"Engineering\"}]") == List([Object(Some("Engineering"))])
    ensures ExtractCategory(Some("[{'category': 'Engineering'}]"), jsonLoads) == "Engineering"
  {
    assert Requote("[{'category': 'Engineering'}]") == "[{\"category\": \"Engineering\"}]";
  }

  /** What a boolean mask on the title column returns: rows of df in their
      order, each matching row as often as df holds it, and no other row. */
  ghost predicate TitleMask(r: seq<Row>, df: seq<Row>, kw: string) {
    && Seqs.IsSubsequence(r, df)
    && forall x :: multiset(r)[x] == if Text.MatchesKeyword(x.title, kw) then multiset(df)[x] else 0
  }

  /** The same for a mask on the primary category. */
  ghost predicate CategoryMask(r: seq<Row>, df: seq<Row>, category: string) {
    && Seqs.IsSubsequence(r, df)
    && forall x :: multiset(r)[x] == if x.primaryCategory == Some(category) then multiset(df)[x] else 0
  }

  /** `df['title'].str.contains(kw, case=False, na=False)` as a row filter. */
  function FilterByTitle(df: seq<Row>, kw: string): (r: seq<Row>)
    ensures |r| <= |df|
    ensures forall i | 0 <= i < |r| :: r[i] in df && Text.MatchesKeyword(r[i].title, kw)
    ensures forall i | 0 <= i < |df| :: Text.MatchesKeyword(df[i].title, kw) ==> df[i] in r
    ensures r == [] <==> forall i | 0 <= i < |df| :: !Text.MatchesKeyword(df[i].title, kw)
    ensures TitleMask(r, df, kw)
  {
    Seqs.FilterIsSubsequence(df, (row: Row) => Text.MatchesKeyword(row.title, kw));
    Seqs.FilterMultiset(df, (row: Row) => Text.MatchesKeyword(row.title, kw));
    Seqs.FilterSpec(df, (row: Row) => Text.MatchesKeyword(row.title, kw));
    Seqs.FilterEmpty(df, (row: Row) => Text.MatchesKeyword(row.title, kw));
    Seqs.Filter(df, (row: Row) => Text.MatchesKeyword(row.title, kw))
  }

  /** `df[df['primary_category'] == category]`. */
  function FilterByCategory(df: seq<Row>, category: string): (r: seq<Row>)
    ensures |r| <= |df|
    ensures forall i | 0 <= i < |r| :: r[i] in df && r[i].primaryCategory == Some(category)
    ensures forall i | 0 <= i < |df| :: df[i].primaryCategory == Some(category) ==> df[i] in r
    ensures r == [] <==> forall i | 0 <= i < |df| :: df[i].primaryCategory != Some(category)
    ensures CategoryMask(r, df, category)
  {
    Seqs.FilterIsSubsequence(df, (row: Row) => row.primaryCategory == Some(category));
    Seqs.FilterMultiset(df, (row: Row) => row.primaryCategory == Some(category));
    Seqs.FilterSpec(df, (row: Row) => row.primaryCategory == Some(category));
    Seqs.FilterEmpty(df, (row: Row) => row.primaryCategory == Some(category));
    Seqs.Filter(df, (row: Row) => row.primaryCategory == Some(category))
  }

  /** `df[mask].head(n)['title']`: the titles of the first n postings whose
      title mentions the keyword. */
  function TitleSample(df: seq<Row>, kw: string, n: nat): (r: seq<Option<string>>)
    ensures |r| <= n
  {
    Titles(Seqs.Prefix(FilterByTitle(df, kw), n))
  }

  /** The `title` column. */
  function Titles(df: seq<Row>): (r: seq<Option<string>>)
    ensures |r| == |df| && forall i | 0 <= i < |df| :: r[i] == df[i].title
  {
    seq(|df|, i requires 0 <= i < |df| => df[i].title)
  }
}
