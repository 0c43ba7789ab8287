/** Frequency tables: pandas `Series.value_counts()` followed by `head(k)`,
    and `collections.Counter.most_common(k)`. Both list each distinct value
    with its number of occurrences, most frequent first; here values with
    equal counts keep the order of their first appearance. */
module Counting {
  import Seqs
  import Sorting

  type Tally = (string, nat)

  function Frequency(p: Tally): int { p.1 }

  /** What a top-k frequency table promises about the multiset m it was
      computed from: at most k entries, each value once and with its exact
      count, most frequent first, and no value left out that occurs more
      often than one listed (a value is left out only when the table is full). */
  ghost predicate IsTopCounts(m: multiset<string>, k: nat, r: seq<Tally>) {
    && |r| <= k
    && (forall i, j | 0 <= i < j < |r| :: r[i].0 != r[j].0)
    && (forall i | 0 <= i < |r| :: r[i].1 == m[r[i].0] && r[i].1 > 0)
    && (forall i, j | 0 <= i < j < |r| :: r[i].1 >= r[j].1)
    && (forall x | x in m && (forall i | 0 <= i < |r| :: r[i].0 != x) ::
          |r| == k && forall i | 0 <= i < |r| :: m[x] <= r[i].1)
  }

  /** One (value, count) pair per distinct value, in order of first appearance. */
  function Tallies(xs: seq<string>): seq<Tally> {
    var u := Seqs.Unique(xs);
    seq(|u|, i requires 0 <= i < |u| => (u[i], multiset(xs)[u[i]]))
  }

  /** `value_counts()` on a column: every distinct value with its count. */
  function ValueCounts(xs: seq<string>): seq<Tally> {
    Sorting.SortDesc(Tallies(xs), Frequency)
  }

  /** `value_counts().head(k)` / `Counter(xs).most_common(k)`. */
  function TopCounts(xs: seq<string>, k: nat): (r: seq<Tally>)
    ensures IsTopCounts(multiset(xs), k, r)
  {
    TopCountsSpec(xs, k);
    Seqs.Prefix(ValueCounts(xs), k)
  }

  ghost predicate ExactCounts(m: multiset<string>, r: seq<Tally>) {
    forall i | 0 <= i < |r| :: r[i].1 == m[r[i].0] > 0
  }

  ghost predicate Lists(r: seq<Tally>, x: string) {
    exists j | 0 <= j < |r| :: r[j].0 == x
  }

  lemma TalliesSpec(xs: seq<string>)
    ensures Seqs.Distinct(Tallies(xs))
    ensures ExactCounts(multiset(xs), Tallies(xs))
    ensures forall a | 0 <= a < |xs| :: Lists(Tallies(xs), xs[a])
  {
    var u := Seqs.Unique(xs);
    var t := Tallies(xs);
    forall a | 0 <= a < |xs| ensures Lists(t, xs[a]) {
      var b :| 0 <= b < |u| && u[b] == xs[a];
      assert t[b].0 == xs[a];
    }
  }

  /** Equal counts keep the order of first appearance, as
      `Counter.most_common` does: "a" and "b" both occur twice, and "a"
      came first. */
  lemma TopCountsTieExample()
    ensures TopCounts(["a", "b", "b", "a"], 1) == [("a", 2)]
  {
    var t := [("a", 2), ("b", 2)];
    TalliesTieExample();
    assert t[..1] == [("a", 2)];
    assert Sorting.SortDesc(t[..1], Frequency) == [("a", 2)];
    assert Sorting.SortDesc(t, Frequency) == Sorting.InsertDesc(("b", 2), [("a", 2)], Frequency) == t;
  }

  lemma TalliesTieExample()
    ensures Tallies(["a", "b", "b", "a"]) == [("a", 2), ("b", 2)]
  {
    var xs := ["a", "b", "b", "a"];
    UniqueTieExample();
    var m := multiset(xs);
    assert m == multiset{"a"} + multiset{"b"} + multiset{"b"} + multiset{"a"};
    assert m["a"] == 2 && m["b"] == 2;
    var t := Tallies(xs);
    assert |t| == 2 && t[0] == ("a", m["a"]) && t[1] == ("b", m["b"]);
  }

  /** "a" reappears after "b" but keeps its first place. */
  lemma UniqueTieExample()
    ensures Seqs.Unique(["a", "b", "b", "a"]) == ["a", "b"]
  {
    UniqueRepeatExample();
    Seqs.UniqueSnoc(["a", "b", "b"], "a");
    assert ["a", "b", "b"] + ["a"] == ["a", "b", "b", "a"];
  }

  lemma UniqueRepeatExample()
    ensures Seqs.Unique(["a", "b", "b"]) == ["a", "b"]
  {
    Seqs.UniqueSnoc([], "a");
    Seqs.UniqueSnoc(["a"], "b");
    assert [] + ["a"] == ["a"] && ["a"] + ["b"] == ["a", "b"];
    assert Seqs.Unique(["a", "b"]) == ["a", "b"];
    Seqs.UniqueSnoc(["a", "b"], "b");
    assert ["a", "b"] + ["b"] == ["a", "b", "b"];
  }

  /** Exact counts survive any rearrangement of the table. */
  lemma ExactCountsPermutation(m: multiset<string>, a: seq<Tally>, b: seq<Tally>)
    requires multiset(a) == multiset(b) && ExactCounts(m, a)
    ensures ExactCounts(m, b)
  {
    forall i | 0 <= i < |b| ensures b[i].1 == m[b[i].0] > 0 {
      assert b[i] in multiset(a);
      var j :| 0 <= j < |a| && a[j] == b[i];
    }
  }

  lemma ListsPermutation(a: seq<Tally>, b: seq<Tally>, x: string)
    requires multiset(a) == multiset(b) && Lists(a, x)
    ensures Lists(b, x)
  {
    var j :| 0 <= j < |a| && a[j].0 == x;
    assert a[j] in multiset(b);
    var i :| 0 <= i < |b| && b[i] == a[j];
  }

  /** The full table lists every value of xs exactly once, with its count,
      most frequent first. */
  lemma ValueCountsSpec(xs: seq<string>)
    ensures Sorting.NonIncreasing(ValueCounts(xs), Frequency)
    ensures Seqs.Distinct(ValueCounts(xs))
    ensures ExactCounts(multiset(xs), ValueCounts(xs))
    ensures forall a | 0 <= a < |xs| :: Lists(ValueCounts(xs), xs[a])
  {
    var pairs := Tallies(xs);
    var sorted := ValueCounts(xs);
    TalliesSpec(xs);
    Sorting.SortDescSpec(pairs, Frequency);
    Seqs.DistinctPermutation(pairs, sorted);
    ExactCountsPermutation(multiset(xs), pairs, sorted);
    forall a | 0 <= a < |xs| ensures Lists(sorted, xs[a]) {
      ListsPermutation(pairs, sorted, xs[a]);
    }
  }

  /** The first k rows of a complete, sorted frequency table of m are a
      top-k table of m. */
  lemma PrefixIsTop(m: multiset<string>, t: seq<Tally>, k: nat)
    requires Sorting.NonIncreasing(t, Frequency)
    requires Seqs.Distinct(t) && ExactCounts(m, t)
    requires forall x | x in m :: Lists(t, x)
    ensures IsTopCounts(m, k, Seqs.Prefix(t, k))
  {
    PrefixRows(m, t, k);
    forall x | x in m && (forall i | 0 <= i < |Seqs.Prefix(t, k)| :: Seqs.Prefix(t, k)[i].0 != x)
      ensures |Seqs.Prefix(t, k)| == k && forall i | 0 <= i < |Seqs.Prefix(t, k)| :: m[x] <= Seqs.Prefix(t, k)[i].1
    {
      PrefixOmits(m, t, k, x);
    }
  }

  /** The first k rows keep the distinct values, exact counts and order. */
  lemma PrefixRows(m: multiset<string>, t: seq<Tally>, k: nat)
    requires Sorting.NonIncreasing(t, Frequency)
    requires Seqs.Distinct(t) && ExactCounts(m, t)
    ensures |Seqs.Prefix(t, k)| <= k
    ensures forall i, j | 0 <= i < j < |Seqs.Prefix(t, k)| :: Seqs.Prefix(t, k)[i].0 != Seqs.Prefix(t, k)[j].0
    ensures forall i | 0 <= i < |Seqs.Prefix(t, k)| :: Seqs.Prefix(t, k)[i].1 == m[Seqs.Prefix(t, k)[i].0] && Seqs.Prefix(t, k)[i].1 > 0
    ensures forall i, j | 0 <= i < j < |Seqs.Prefix(t, k)| :: Seqs.Prefix(t, k)[i].1 >= Seqs.Prefix(t, k)[j].1
  {
    var r := Seqs.Prefix(t, k);
    assert forall i | 0 <= i < |r| :: r[i] == t[i];
    DistinctValues(m, t);
    forall i, j | 0 <= i < j < |r| ensures r[i].1 >= r[j].1 {
      assert Frequency(t[i]) >= Frequency(t[j]);
    }
  }

  /** In a table of exact counts, distinct rows are rows of distinct values. */
  lemma DistinctValues(m: multiset<string>, t: seq<Tally>)
    requires Seqs.Distinct(t) && ExactCounts(m, t)
    ensures forall i, j | 0 <= i < j < |t| :: t[i].0 != t[j].0
  {
    forall i, j | 0 <= i < j < |t| ensures t[i].0 != t[j].0 {
      assert t[i] != t[j];
      assert t[i].1 == m[t[i].0] && t[j].1 == m[t[j].0];
    }
  }

  /** A value missing from the first k rows of such a table appears after
      them: the prefix is full and every listed count is at least its count. */
  lemma PrefixOmits(m: multiset<string>, t: seq<Tally>, k: nat, x: string)
    requires Sorting.NonIncreasing(t, Frequency)
    requires ExactCounts(m, t) && Lists(t, x)
    requires forall i | 0 <= i < |Seqs.Prefix(t, k)| :: Seqs.Prefix(t, k)[i].0 != x
    ensures |Seqs.Prefix(t, k)| == k
    ensures forall i | 0 <= i < |Seqs.Prefix(t, k)| :: m[x] <= Seqs.Prefix(t, k)[i].1
  {
    var r := Seqs.Prefix(t, k);
    var j :| 0 <= j < |t| && t[j].0 == x;
    assert forall i | 0 <= i < |r| :: r[i] == t[i];
    assert j >= |r|;
    forall i | 0 <= i < |r| ensures m[x] <= r[i].1 {
      assert Frequency(t[i]) >= Frequency(t[j]);
    }
  }

  lemma TopCountsSpec(xs: seq<string>, k: nat)
    ensures IsTopCounts(multiset(xs), k, Seqs.Prefix(ValueCounts(xs), k))
  {
    ValueCountsSpec(xs);
    forall x | x in multiset(xs) ensures Lists(ValueCounts(xs), x) {
      var a :| 0 <= a < |xs| && xs[a] == x;
    }
    PrefixIsTop(multiset(xs), ValueCounts(xs), k);
  }
}
