/** `TransitionPathFinder.find_stepping_stones`: intermediate roles whose
    skills overlap both with the skills seen in current-role postings and
    with those seen in target-role postings, best overlap first. */
module PathFinder {
  import opened Wrappers
  import Text
  import Seqs
  import Sorting
  import Records
  import Skills

  /** One stepping stone: a distinct posting title and how many of its
      skills it shares with each side. */
  datatype Candidate = Candidate(role: string, overlapCurrent: nat, overlapTarget: nat)

  /** The sort key: the total overlap. */
  function TotalOverlap(c: Candidate): int {
    c.overlapCurrent + c.overlapTarget
  }

  /** How many distinct titles are examined. */
  const RoleSample := 500
  /** How many matching postings each side's skills are gathered from. */
  const TitleSample := 10

  /** The skills of the first ten postings whose title mentions the role. */
  function SampleSkills(df: seq<Records.Row>, role: string): set<string> {
    Skills.SkillsOf(Seqs.Prefix(Records.Titles(Records.FilterByTitle(df, role)), TitleSample), Skills.FlatSkills)
  }

  /** A title as a candidate: the sizes of its skills' intersections with
      the two samples. */
  function Assess(role: string, vocab: seq<string>, current: set<string>, target: set<string>): Candidate {
    var skills := Skills.SkillsIn(Some(role), vocab);
    Candidate(role, |skills * current|, |skills * target|)
  }

  /** The test of the scan: more than one shared skill with each side. */
  predicate Qualifies(c: Candidate) {
    c.overlapCurrent > 1 && c.overlapTarget > 1
  }

  /** The candidates found among some titles, in the order they are met:
      the titles sharing more than one skill with each side. */
  function Candidates(roles: seq<Option<string>>, vocab: seq<string>, current: set<string>, target: set<string>): (r: seq<Candidate>)
    ensures |r| <= |roles|
    ensures forall i | 0 <= i < |r| ::
      && Some(r[i].role) in roles
      && r[i] == Assess(r[i].role, vocab, current, target)
      && Qualifies(r[i])
  {
    if roles == [] then []
    else
      var rest := Candidates(roles[..|roles| - 1], vocab, current, target);
      var role := roles[|roles| - 1];
      if role.Some? && Qualifies(Assess(role.value, vocab, current, target)) then
        rest + [Assess(role.value, vocab, current, target)]
      else rest
  }

  /** Meeting one more title appends it when it qualifies. */
  lemma CandidatesStep(roles: seq<Option<string>>, k: int, vocab: seq<string>, current: set<string>, target: set<string>)
    requires 0 <= k < |roles|
    ensures
      Candidates(roles[..k + 1], vocab, current, target)
        == Candidates(roles[..k], vocab, current, target)
         + (if roles[k].Some? && Qualifies(Assess(roles[k].value, vocab, current, target))
            then [Assess(roles[k].value, vocab, current, target)] else [])
  {
    assert roles[..k + 1][..k] == roles[..k];
  }

  /** Among distinct titles, a title's assessment is listed exactly when it
      qualifies. */
  lemma {:induction false} CandidatesComplete(roles: seq<Option<string>>, vocab: seq<string>, current: set<string>, target: set<string>, k: int)
    requires 0 <= k < |roles| && roles[k].Some?
    requires Seqs.Distinct(roles)
    ensures (Assess(roles[k].value, vocab, current, target) in Candidates(roles, vocab, current, target))
        == Qualifies(Assess(roles[k].value, vocab, current, target))
  {
    var init := roles[..|roles| - 1];
    var rest := Candidates(init, vocab, current, target);
    var cand := Assess(roles[k].value, vocab, current, target);
    if k < |roles| - 1 {
      assert Seqs.Distinct(init) by {
        forall i, j | 0 <= i < j < |init| ensures init[i] != init[j] {
          assert init[i] == roles[i] && init[j] == roles[j];
        }
      }
      assert init[k] == roles[k];
      CandidatesComplete(init, vocab, current, target, k);
      var last := roles[|roles| - 1];
      assert last != roles[k];
      assert last.Some? ==> Assess(last.value, vocab, current, target).role != cand.role;
    } else {
      forall i | 0 <= i < |rest| ensures rest[i].role != cand.role {
        var j :| 0 <= j < |init| && init[j] == Some(rest[i].role);
        assert roles[j] == init[j];
      }
      assert cand !in rest;
    }
  }

  /** The best `maxGaps` candidates: stably sorted by total overlap,
      largest first, and cut with Python slice semantics. */
  function Best(candidates: seq<Candidate>, maxGaps: int): seq<Candidate> {
    Seqs.Prefix(Sorting.SortDesc(candidates, TotalOverlap), maxGaps)
  }

  /** The best candidates are ordered by total overlap, at most `maxGaps`
      of them are listed, and each is one of the candidates. */
  lemma BestOrdered(candidates: seq<Candidate>, maxGaps: int)
    ensures Sorting.NonIncreasing(Best(candidates, maxGaps), TotalOverlap)
    ensures maxGaps >= 0 ==> |Best(candidates, maxGaps)| <= maxGaps
    ensures multiset(Best(candidates, maxGaps)) <= multiset(candidates)
  {
    var sorted := Sorting.SortDesc(candidates, TotalOverlap);
    var r := Best(candidates, maxGaps);
    Sorting.SortDescSpec(candidates, TotalOverlap);
    assert sorted == r + sorted[|r|..];
    assert multiset(sorted) == multiset(r) + multiset(sorted[|r|..]);
  }

  /** No candidate left out has a larger total overlap than a listed one. */
  lemma BestOmitted(candidates: seq<Candidate>, maxGaps: int, c: Candidate)
    requires c in candidates && c !in Best(candidates, maxGaps)
    ensures forall i | 0 <= i < |Best(candidates, maxGaps)| :: TotalOverlap(c) <= TotalOverlap(Best(candidates, maxGaps)[i])
  {
    var sorted := Sorting.SortDesc(candidates, TotalOverlap);
    var r := Best(candidates, maxGaps);
    Sorting.SortDescSpec(candidates, TotalOverlap);
    assert c in multiset(sorted);
    var j :| 0 <= j < |sorted| && sorted[j] == c;
    assert r == sorted[..|r|];
    assert j >= |r|;
    forall i | 0 <= i < |r| ensures TotalOverlap(c) <= TotalOverlap(r[i]) {
      assert r[i] == sorted[i];
    }
  }

  /** Candidates with the same total overlap are listed in the order in
      which their titles were met. */
  lemma BestStable(candidates: seq<Candidate>, maxGaps: int, k: int)
    ensures Sorting.WithKey(Best(candidates, maxGaps), TotalOverlap, k) <= Sorting.WithKey(candidates, TotalOverlap, k)
  {
    var sorted := Sorting.SortDesc(candidates, TotalOverlap);
    var r := Best(candidates, maxGaps);
    assert sorted == r + sorted[|r|..];
    Sorting.SortDescStable(candidates, TotalOverlap, k);
    Sorting.WithKeyAppend(r, sorted[|r|..], TotalOverlap, k);
  }

  /** Every stepping stone is a title of some posting and shares more than
      one skill with each side. */
  lemma BestFromTitles(df: seq<Records.Row>, roles: seq<Option<string>>, vocab: seq<string>,
                       current: set<string>, target: set<string>, maxGaps: int)
    requires roles == Seqs.Prefix(Seqs.Unique(Records.Titles(df)), RoleSample)
    ensures
      var r := Best(Candidates(roles, vocab, current, target), maxGaps);
      forall i | 0 <= i < |r| ::
        && Some(r[i].role) in Records.Titles(df)
        && r[i].overlapCurrent > 1 && r[i].overlapTarget > 1
  {
    var candidates := Candidates(roles, vocab, current, target);
    BestMembers(candidates, maxGaps);
    forall m | 0 <= m < |roles| ensures roles[m] in Records.Titles(df) {
      assert roles[m] in Seqs.Unique(Records.Titles(df));
    }
  }

  lemma BestMembers(candidates: seq<Candidate>, maxGaps: int)
    ensures forall i | 0 <= i < |Best(candidates, maxGaps)| :: Best(candidates, maxGaps)[i] in candidates
  {
    var sorted := Sorting.SortDesc(candidates, TotalOverlap);
    Sorting.SortDescSpec(candidates, TotalOverlap);
    forall i | 0 <= i < |Best(candidates, maxGaps)| ensures Best(candidates, maxGaps)[i] in candidates {
      assert Best(candidates, maxGaps)[i] == sorted[i];
      assert sorted[i] in multiset(sorted);
    }
  }

  /** What `find_stepping_stones` returns: the best candidates among the
      first 500 distinct titles. */
  function SteppingStones(df: seq<Records.Row>, currentRole: string, targetRole: string, maxGaps: int): seq<Candidate> {
    var roles := Seqs.Prefix(Seqs.Unique(Records.Titles(df)), RoleSample);
    Best(Candidates(roles, Skills.FlatSkills, SampleSkills(df, currentRole), SampleSkills(df, targetRole)), maxGaps)
  }

  /** One turn of the scan: the title's skills, both sides' samples
      gathered again, and the two overlaps (none for a missing title). */
  method AssessRole(role: Option<string>, vocab: seq<string>,
                    currentTitles: seq<Option<string>>, targetTitles: seq<Option<string>>)
    returns (overlapCurrent: nat, overlapTarget: nat)
    ensures role.None? ==> overlapCurrent == 0 && overlapTarget == 0
    ensures role.Some? ==>
      Candidate(role.value, overlapCurrent, overlapTarget)
        == Assess(role.value, vocab, Skills.SkillsOf(currentTitles, vocab), Skills.SkillsOf(targetTitles, vocab))
  {
    var roleSkills := Skills.ExtractSkills(role, vocab);
    var currentSkillsSample := Skills.CollectSkills(currentTitles, vocab);
    var targetSkillsSample := Skills.CollectSkills(targetTitles, vocab);
    var roleSet := set s | s in roleSkills;
    assert roleSet == Skills.SkillsIn(role, vocab);
    overlapCurrent := |roleSet * currentSkillsSample|;
    overlapTarget := |roleSet * targetSkillsSample|;
  }

  /** The loop of `find_stepping_stones` over the sampled titles: each title
      is kept when it shares more than one skill with each side. */
  method GatherCandidates(roles: seq<Option<string>>, vocab: seq<string>,
                          currentTitles: seq<Option<string>>, targetTitles: seq<Option<string>>)
    returns (candidates: seq<Candidate>)
    ensures candidates == Candidates(roles, vocab, Skills.SkillsOf(currentTitles, vocab), Skills.SkillsOf(targetTitles, vocab))
  {
    candidates := [];
    ghost var current, target := Skills.SkillsOf(currentTitles, vocab), Skills.SkillsOf(targetTitles, vocab);
    for k := 0 to |roles|
      invariant candidates == Candidates(roles[..k], vocab, current, target)
    {
      var role := roles[k];
      var overlapCurrent, overlapTarget := AssessRole(role, vocab, currentTitles, targetTitles);
      CandidatesStep(roles, k, vocab, current, target);
      if overlapCurrent > 1 && overlapTarget > 1 {
        candidates := candidates + [Candidate(role.value, overlapCurrent, overlapTarget)];
      }
    }
    assert roles[..|roles|] == roles;
  }

  /** `find_stepping_stones(df, current_role, target_role, max_gaps)`: walks
      the first 500 distinct titles, keeps those that share more than one
      skill with the first ten current-role postings and with the first ten
      target-role postings, and returns the best `maxGaps` of them by total
      overlap. */
  method FindSteppingStones(df: seq<Records.Row>, currentRole: string, targetRole: string, maxGaps: int := 3)
    returns (stones: seq<Candidate>)
    requires Text.PlainKeyword(currentRole) && Text.PlainKeyword(targetRole)
    ensures stones == SteppingStones(df, currentRole, targetRole, maxGaps)
    ensures forall i | 0 <= i < |stones| ::
      && Some(stones[i].role) in Records.Titles(df)
      && stones[i].overlapCurrent > 1 && stones[i].overlapTarget > 1
  {
    var currentRoles := Records.FilterByTitle(df, currentRole);
    var targetRoles := Records.FilterByTitle(df, targetRole);
    var allRoles := Seqs.Unique(Records.Titles(df));
    var roles := Seqs.Prefix(allRoles, RoleSample);
    var candidates := GatherCandidates(roles, Skills.FlatSkills,
      Seqs.Prefix(Records.Titles(currentRoles), TitleSample), Seqs.Prefix(Records.Titles(targetRoles), TitleSample));
    stones := Seqs.Prefix(Sorting.SortDesc(candidates, TotalOverlap), maxGaps);
    BestFromTitles(df, roles, Skills.FlatSkills,
      SampleSkills(df, currentRole), SampleSkills(df, targetRole), maxGaps);
  }
}
