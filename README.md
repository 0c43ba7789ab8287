# careerpath analytics, modelled in Dafny

This project models the analytics layer of *careerpath*, a job-market dashboard over a frame of Singapore job postings. The modelled code lives in `utilities.py` and in the helper functions and inline rules of `dashboard.py`. It covers:

- **Records.** Normalising the postings frame (`DataProcessor`). Numeric coercion never fails. The primary category comes out of a loosely quoted JSON list. Missing titles and position levels get defaults.
- **Skills.** Finding skills in text by case-insensitive substring search over a vocabulary (`SkillsAnalyzer`, `extract_skills_from_title`), and the skill frequency tables built from those matches.
- **Matching.** Skill matching, gap analysis, and the gap/overlap splits of the dashboard (`CareerPathAnalyzer`, `find_skill_gaps`, the mid-career and career-switcher blocks of `main`).
- **Transition.** The transition-time estimate, the experience bands and the transition-difficulty verdict.
- **Market.** Market statistics per role keyword and per category (`MarketAnalyzer`).
- **PathFinder.** The stepping-stone finder (`TransitionPathFinder`).

## How the model is organised

A DataFrame is a `seq<Records.Row>`. Nullable columns are `Option` fields. Numeric columns are a `Cell`: missing, a Python int, a float, or text together with what `float()` makes of it.

`json.loads` is a function parameter returning an abstract parse result. The code after the parse is modelled concretely.

`df['title'].str.contains(kw, case=False, na=False)` is a case-insensitive substring test that is false for a missing title (`Text.MatchesKeyword`). Its callers require `Text.PlainKeyword(kw)`: no regex metacharacters. The same holds for `skill.upper() in text.upper()`. Upper-casing is ASCII.

Python's sorts and frequency tables become functions in `Sorting` and `Counting`:
- `list.sort(reverse=True)` is a stable descending sort, proved sorted, a permutation and stable.
- `value_counts().head(k)` and `Counter.most_common(k)` are `Counting.TopCounts`, characterised by `Counting.IsTopCounts`.

Code that builds results step by step is modelled as methods with loops, each proved equal to a specification function. This covers `extract_skills`, `get_skills_by_role`, `get_skills_by_category`, `find_skill_gaps`, the mid-career set updates and `find_stepping_stones`. The rest is modelled as functions.

`extract_category` appears twice, at `utilities.py:16-26` and `dashboard.py:102-113`, with identical code. Both are modelled by `Records.ExtractCategory`.

`calculate_skill_match` also appears twice, and the two versions differ:
- the utilities version tests the raw list for emptiness;
- the dashboard version tests the lower-cased set and takes an unused weight.

`Matching.SkillMatchVariantsAgree` proves they always return the same value.

## Model

| member | source | states |
|---|---|---|
| Records.Requote | utilities.py:21 | every single quote becomes a double quote, nothing else changes and the length is kept |
| Records.ExtractCategory | utilities.py:16-26 | "Unknown" for a missing value, a parse failure, a non-list or an empty list, or a first entry without a category; otherwise the first entry's category |
| Records.ExtractCategoryExample | dashboard.py:102-113 | a single-quoted one-element list yields its category once re-quoted and parsed |
| Records.Truncate | utilities.py:44 | `int()` on a float truncates toward zero, for both signs |
| Records.CleanSalary | utilities.py:29-36 | a missing or unparseable value is 0; otherwise the numeric value |
| Records.CleanExperience | utilities.py:38-46 | a missing or unparseable value is 0; an int is kept; a float, or text parsed as one, is truncated toward zero, for both signs |
| Records.CleanExperienceExamples | utilities.py:39-46 | "abc" becomes 0, "7.0" becomes 7, -1.5 becomes -1, and a missing salary becomes 0 |
| Records.ProcessRow | utilities.py:49-69 | a processed row is normalised: integer experience, float salaries, `average_salary` the mean of the two, title and position level filled with "Unknown Position" and "Not Specified" only when missing, the primary category extracted, and the other columns unchanged |
| Records.ProcessData | utilities.py:49-69 | the row count is unchanged and each row is the processed input row |
| Records.ProcessDataIdempotent | utilities.py:49-69 | processing an already processed frame changes nothing |
| Records.FilterByTitle | utilities.py:224 | the boolean mask keeps the frame's order and keeps each matching row exactly as often as the frame holds it, and no other row; the result is empty exactly when no title matches |
| Records.FilterByCategory | utilities.py:247 | the mask keeps the frame's order and keeps each row with the primary category exactly as often as the frame holds it, and no other row; the result is empty exactly when none has it |
| Seqs.Prefix | utilities.py:314 | Python slice `[:n]`: a prefix whose length is min(n, len) for n ≥ 0 and len + n (at least 0) for negative n |
| Seqs.Unique | utilities.py:285 | `Series.unique()`: no duplicates, the same elements, in the order of first occurrence (wherever a later value occurs, each earlier value has already occurred) |
| Seqs.UniqueExample | utilities.py:285 | `["A", "B", "A"]` gives `["A", "B"]`: a repeated value stays where it first appeared |
| Seqs.FilterPartition | dashboard.py:718-719 | filtering by a predicate and by its negation splits a list into parts whose multisets add up to the list |
| Seqs.FilterSplit | dashboard.py:718-719 | the two comprehensions together keep every required skill once, each in the original order, and each skill lands on the side whose test it passes |
| Sorting.SortDescSpec | utilities.py:309-312 | the descending sort is ordered by the key and is a permutation of its input |
| Sorting.SortDescStable | utilities.py:309-312 | the sort is stable: elements with equal keys keep their relative order |
| Counting.ValueCountsSpec | utilities.py:238-239 | `value_counts()` lists each distinct value once, with its exact count, most frequent first, and omits no value |
| Counting.TopCounts | utilities.py:164 | `most_common(k)` / `value_counts().head(k)`: at most k distinct values with exact counts, most frequent first, and a value is left out only when the table is full and the value is no more frequent than any listed one |
| Counting.TopCountsTieExample | utilities.py:164 | `most_common(1)` of `["a", "b", "b", "a"]` is `[("a", 2)]`: of two values with equal counts the one seen first comes first |
| Skills.SkillsOfSpec | dashboard.py:460-464 | a skill is in the union over several titles exactly when some title mentions it |
| Skills.SkillCountsSpec | utilities.py:147-151 | a skill's count in the Counter equals the number of titles mentioning it, so it never exceeds the number of titles |
| Skills.ListOfSet | utilities.py:139 | `list(set(xs))`: no duplicates and the same elements |
| Skills.ExtractSkills | utilities.py:127-139 | empty for a missing text; otherwise exactly the vocabulary entries whose upper-case form occurs in the upper-cased text, without duplicates |
| Skills.ExtractSkillsFromText | utilities.py:122-139 | the extractor over `FLAT_SKILLS`; no duplicates, although "Microservices" is listed twice (lines 101 and 112) |
| Skills.ExtractSkillsFromTitle | dashboard.py:118-139 | the extractor over the dashboard's title keywords |
| Skills.CollectSkills | dashboard.py:460-464 | the set updated with each title's skills is the union of the skills of the titles |
| Skills.CountSkills | utilities.py:147-151 | the list extended with each title's skills has, as a multiset, every title adding each of its skills once |
| Skills.GetSkillsByRole | utilities.py:141-152 | the Counter of skills over the first `limit` postings whose title mentions the role; no count exceeds the number of those postings |
| Skills.GetSkillsByCategory | utilities.py:154-164 | the ten most common skills over the first 100 postings of the category, as a top-10 table |
| Skills.ImpliedSkill | utilities.py:135-137 | an entry found in a text implies that every vocabulary entry contained in it is found too |
| Skills.TitleKeywordOverlaps | dashboard.py:124-137 | "Java" is reported whenever "JavaScript" is, and "BI" whenever "Power BI" is |
| Skills.SeniorPythonExample | utilities.py:132-137 | "Python" is found in "Senior PYTHON Developer" |
| Text.LexLessIrreflexive | utilities.py:191 | string order (by code point) is irreflexive |
| Text.LexLessTransitive | utilities.py:191 | string order is transitive |
| Text.LexLessTotal | utilities.py:191 | any two distinct strings are ordered one way or the other |
| Text.MatchesKeywordCaseInsensitive | utilities.py:224 | `case=False, na=False`: a missing title never matches, and lower- or upper-casing the title or lower-casing the keyword does not change the outcome |
| Matching.LowerSetElements | utilities.py:187-188 | the lower-cased set holds only lower-case strings |
| Matching.RoundedPercentage | utilities.py:180-182 | `round(100*m/n, 1)` lies in [0,100], is 0 for m = 0 and 100 for m = n, and is the tenth nearest to 100·m/n |
| Matching.Tenths | utilities.py:180-182 | the number of tenths is between 0 and 1000, is 0 for no match and 1000 for a full match, and is 100·m/n rounded to the nearest tenth |
| Matching.SkillMatch | utilities.py:171-182 | 100 for an empty job list; otherwise 100·|user ∩ job| / |job| over the lower-cased sets, rounded to the nearest tenth: in [0,100], 0 when the sets are disjoint and 100 when the job set is contained in the user set |
| Matching.SkillMatchExample | utilities.py:171-182 | one of three job skills matched gives 33.3 |
| Matching.SkillMatchExtremes | utilities.py:176-182 | with under 2000 distinct job skills, the result is 0 exactly when nothing matches and 100 exactly when everything does |
| Matching.DashboardSkillMatch | dashboard.py:152-163 | 100 when the lower-cased job set is empty; otherwise the matched share of it as a percentage rounded to the nearest tenth |
| Matching.SkillMatchVariantsAgree | dashboard.py:152-163 | the dashboard's version returns the same value as the utilities one, whatever `weight_match` is |
| Matching.SortedDistinct | utilities.py:191 | `sorted(list(set))`: strictly ascending with the same elements |
| Matching.AscendingUnique | utilities.py:191 | a strictly ascending list is determined by its elements |
| Matching.IdentifyGaps | utilities.py:185-191 | strictly ascending; holds exactly the lower-cased target skills not among the lower-cased user skills |
| Matching.IdentifyGapsPartition | utilities.py:185-191 | the gaps are lower case and disjoint from the user's skills, and with the shared skills they rebuild the lower-cased target set |
| Matching.IdentifyGapsCanonical | utilities.py:185-191 | the result depends only on the two lower-cased sets |
| Matching.FindSkillGaps | dashboard.py:165-175 | no duplicates; exactly the lower-cased title skills of the target postings the user lacks; all lower case; each comes from some posting's title |
| Matching.MidCareerSkillGap | dashboard.py:457-468 | skills come from the first 20 matching postings per side; gaps and overlaps are disjoint and together make up the target skills; membership is case-sensitive |
| Matching.SwitcherSplit | dashboard.py:718-719 | gaps and matches together hold every required skill exactly as often as the list, each keeps the list's order, and membership in the transferable skills decides the side |
| Matching.RequiredSkills | dashboard.py:706-716 | each domain's critical-skill list names three to five distinct skills; any other domain gets the three generic ones |
| Matching.DataScienceSwitcherExample | dashboard.py:706-719 | a Data Science switcher who knows Python and SQL lacks exactly the other three required skills, in table order |
| Market.Min | utilities.py:235 | `Series.min()` is an element no larger than any other |
| Market.Max | utilities.py:237 | `Series.max()` is an element no smaller than any other |
| Market.MeanBetween | utilities.py:235-237 | the mean experience lies between the minimum and the maximum |
| Market.ExperienceSpan | utilities.py:235-237 | for the matching postings, minimum ≤ mean ≤ maximum experience; the minimum and the maximum bound every posting and each is some posting's value |
| Market.Present | utilities.py:238-239 | `value_counts` drops missing values and sees every present value exactly as often as the column holds it |
| Market.RoleStatsOf | utilities.py:229-239 | for a non-empty set of postings: their number; min ≤ mean ≤ max experience, min and max attained and bounding every posting; a top-5 company table; the job-status distribution |
| Market.GetRoleStats | utilities.py:222-242 | None exactly when no title contains the keyword; otherwise those statistics over the postings whose title contains it |
| Market.CategoryStatsOf | utilities.py:253-257 | for a non-empty set of postings: their number; a mean experience within their range; the position-level and employment-type distributions |
| Market.GetCategoryStats | utilities.py:245-260 | None exactly when no posting has the category; otherwise those statistics over the postings of the category |
| Transition.TimeMap | utilities.py:196-200 | the table has exactly the tiers low, medium and high |
| Transition.EstimateTransitionTime | utilities.py:194-205 | a KeyError exactly for an unknown tier; otherwise the least value that is at least the tier's floor and covers the skills' weeks, i.e. `max(floor, ⌊n·w/4⌋)` |
| Transition.TransitionTimeMonotone | utilities.py:194-205 | more skills never take less time |
| Transition.TransitionTimeTierMonotone | utilities.py:196-205 | a harder tier never takes less time |
| Transition.TransitionTimeExamples | utilities.py:194-205 | (0, low) gives 3, (5, medium) gives 7, (20, high) gives 40, and an unknown tier is a KeyError |
| Transition.CategorizeExperienceLevel | dashboard.py:141-150 | entry below 2 years, early in [2,5), mid in [5,10), senior from 10, each band exactly |
| Transition.ExperienceLevelMonotone | dashboard.py:141-150 | the band never moves down as the years grow |
| Transition.LabelInjective | dashboard.py:144-150 | the four labels are distinct |
| Transition.TransitionDifficulty | dashboard.py:633-650 | "Moderate" when no title mentions the domain; otherwise "Low-Moderate" from half the domain's mean experience up, "Moderate" from three tenths up to half, and "Challenging" below |
| Transition.DifficultyMonotone | dashboard.py:642-650 | more years never make the verdict harder |
| PathFinder.Candidates | utilities.py:286-306 | each candidate is one of the scanned titles, its two overlaps are the sizes of its skills' intersections with the two samples, and both exceed 1 |
| PathFinder.CandidatesStep | utilities.py:301-306 | meeting one more title appends it exactly when both overlaps exceed 1 |
| PathFinder.CandidatesComplete | utilities.py:298-306 | among distinct titles, a title is listed, with its overlaps, exactly when both overlaps exceed 1 |
| PathFinder.BestOrdered | utilities.py:309-314 | the result is ordered by total overlap, largest first, has at most `max_gaps` entries and is drawn from the candidates |
| PathFinder.BestOmitted | utilities.py:309-314 | no candidate left out has a larger total overlap than a listed one |
| PathFinder.BestStable | utilities.py:309-312 | entries with equal total overlap keep the order in which their titles were scanned |
| PathFinder.BestMembers | utilities.py:309-314 | every returned entry is a candidate |
| PathFinder.BestFromTitles | utilities.py:285-314 | every returned role is a posting title, with both overlaps above 1 |
| PathFinder.AssessRole | utilities.py:287-299 | one turn of the scan: no overlap for a missing title; otherwise the two overlaps are the sizes of the title's skills intersected with the skills of the two samples |
| PathFinder.GatherCandidates | utilities.py:286-306 | the loop collects exactly the candidates, in scan order |
| PathFinder.FindSteppingStones | utilities.py:275-314 | the result is the best `max_gaps` candidates among the first 500 distinct titles in order of first appearance, ties kept in that order. Every role is a posting title and both overlaps exceed 1. |

## Left out

- Streamlit rendering, CSS, widgets and charts in `dashboard.py` are user interface, not logic.
- `load_data` and the `__main__` dataset load are file and network I/O. Their cleaning repeats `process_data`, which is modelled.
- `estimate_salary_growth` and the salary-jump figures are float arithmetic with rounding, not modelled.
- Salary means and medians in `get_role_stats` / `get_category_stats`, `get_salary_by_experience` and the histogram binning are float aggregation and pandas groupby behaviour. The result types omit these fields.
- `json.loads` and Python's `float()` are library parsers. They are a function parameter and an abstract `Cell.TextCell` parse result.
- Upper- and lower-casing are ASCII only. Python's Unicode case mapping is not modelled.
- `str.contains` interprets its keyword as a regular expression. The model treats it as a plain substring and requires keywords without metacharacters (`Text.PlainKeyword`). This excludes the dashboard domain "Learning & Development (L&D)", whose parentheses pandas reads as a group.
- Records.ExtractCategory: a first entry whose "category" is JSON null or a non-string value is returned as it is by Python. The model has only string categories and yields "Unknown" there.
- Records.CleanExperience: `int(float(i))` rounds integers beyond 2^53 to the nearest double; the model keeps such an integer unchanged.
- Matching.RoundedPercentage: rounds half up on the exact quotient, and so do SkillMatch and DashboardSkillMatch, which use it. Python's `round` works on a binary float and rounds half to even.
- Transition.TransitionDifficulty: compares with 0.5 and 0.3 times the mean exactly, not in floating point.
- Market.GetRoleStats: requires an integer experience column, as `process_data` leaves it. Raw columns with missing values, where pandas skips NaN, are not modelled.
- Market.GetCategoryStats: requires an integer experience column, for the same reason as GetRoleStats.
- Counting.TopCounts: the contract (`Counting.IsTopCounts`) leaves the order of equal counts open. The definition breaks ties by first appearance, as `Counter.most_common` does (`Counting.TopCountsTieExample`); pandas `value_counts` leaves that order to its implementation.
- Skills.ExtractSkills: `list(set(...))` has no defined order. The contract fixes only the elements and the absence of duplicates.
- Matching.FindSkillGaps: the order of `list(gaps)` is likewise left open.
- Skills.ExtractSkillsFromTitle: the dashboard's keywords are a Python set literal. The model scans them in the order written, which does not affect the result as a set.
- The model does not cover non-string values in text columns (`str(text)` on numbers), non-finite floats, or column dtypes.
- `config.py` holds static tables and `setup.py` installer plumbing. Neither is part of this model.
