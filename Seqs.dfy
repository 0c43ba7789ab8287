/** Sequence operations that stand for pandas/Python list idioms: slicing
    `s[:n]` and `DataFrame.head(n)`, boolean-mask filtering, and
    `Series.unique()`. */
module Seqs {

  /** Python's `s[:n]` (and pandas' `head(n)`): the first n elements; a
      negative n drops the last |n| elements instead. */
  function Prefix<T>(s: seq<T>, n: int): (r: seq<T>)
    ensures r <= s
    ensures n >= 0 ==> |r| == if n < |s| then n else |s|
    ensures n < 0 ==> |r| == if |s| + n > 0 then |s| + n else 0
  {
    if n >= 0 then (if n < |s| then s[..n] else s)
    else (if |s| + n > 0 then s[..|s| + n] else [])
  }

  /** A boolean mask applied to a frame: the elements satisfying p, in order. */
  function Filter<T>(s: seq<T>, p: T -> bool): seq<T> {
    if s == [] then [] else (if p(s[0]) then [s[0]] else []) + Filter(s[1..], p)
  }

  ghost predicate Distinct<T>(s: seq<T>) {
    forall i, j | 0 <= i < j < |s| :: s[i] != s[j]
  }

  /** a can be obtained from b by deleting elements: a keeps b's order. */
  ghost predicate IsSubsequence<T>(a: seq<T>, b: seq<T>) {
    if a == [] then true
    else if b == [] then false
    else if a[0] == b[0] then IsSubsequence(a[1..], b[1..])
    else IsSubsequence(a, b[1..])
  }

  lemma {:induction false} FilterSpec<T>(s: seq<T>, p: T -> bool)
    ensures |Filter(s, p)| <= |s|
    ensures forall i | 0 <= i < |Filter(s, p)| :: Filter(s, p)[i] in s && p(Filter(s, p)[i])
    ensures forall i | 0 <= i < |s| :: p(s[i]) ==> s[i] in Filter(s, p)
  {
    if s != [] {
      FilterSpec(s[1..], p);
      assert s == [s[0]] + s[1..];
    }
  }

  /** A mask keeps every element it lets through as often as it occurs. */
  lemma {:induction false} FilterMultiset<T>(s: seq<T>, p: T -> bool)
    ensures forall x :: multiset(Filter(s, p))[x] == if p(x) then multiset(s)[x] else 0
  {
    if s != [] {
      FilterMultiset(s[1..], p);
      assert s == [s[0]] + s[1..];
      var head := if p(s[0]) then [s[0]] else [];
      assert Filter(s, p) == head + Filter(s[1..], p);
      assert multiset(Filter(s, p)) == multiset(head) + multiset(Filter(s[1..], p));
    }
  }

  lemma {:induction false} FilterEmpty<T>(s: seq<T>, p: T -> bool)
    ensures Filter(s, p) == [] <==> forall i | 0 <= i < |s| :: !p(s[i])
  {
    FilterSpec(s, p);
    if Filter(s, p) != [] {
      var x := Filter(s, p)[0];
      var i :| 0 <= i < |s| && s[i] == x;
      assert p(s[i]);
    }
  }

  lemma {:induction false} FilterAppend<T>(a: seq<T>, b: seq<T>, p: T -> bool)
    ensures Filter(a + b, p) == Filter(a, p) + Filter(b, p)
  {
    if a == [] {
      assert a + b == b;
    } else {
      var head := if p(a[0]) then [a[0]] else [];
      calc {
        Filter(a + b, p);
        { assert (a + b)[0] == a[0]; assert (a + b)[1..] == a[1..] + b; }
        head + Filter(a[1..] + b, p);
        { FilterAppend(a[1..], b, p); }
        head + (Filter(a[1..], p) + Filter(b, p));
        (head + Filter(a[1..], p)) + Filter(b, p);
        Filter(a, p) + Filter(b, p);
      }
    }
  }

  lemma {:induction false} FilterIsSubsequence<T>(s: seq<T>, p: T -> bool)
    ensures IsSubsequence(Filter(s, p), s)
  {
    if s != [] {
      FilterIsSubsequence(s[1..], p);
      if p(s[0]) {
        assert Filter(s, p) == [s[0]] + Filter(s[1..], p);
        assert Filter(s, p)[1..] == Filter(s[1..], p);
      } else {
        assert Filter(s, p) == Filter(s[1..], p);
        SubsequenceSkip(Filter(s[1..], p), s);
      }
    }
  }

  lemma {:induction false} SubsequenceSkip<T>(a: seq<T>, b: seq<T>)
    requires b != [] && IsSubsequence(a, b[1..])
    ensures IsSubsequence(a, b)
    decreases |a| + |b|
  {
    if a != [] && a[0] == b[0] {
      SubsequenceTail(a, b[1..]);
    }
  }

  lemma {:induction false} SubsequenceTail<T>(a: seq<T>, b: seq<T>)
    requires a != [] && IsSubsequence(a, b)
    ensures IsSubsequence(a[1..], b)
    decreases |a| + |b|
  {
    if a[0] == b[0] {
      SubsequenceSkip(a[1..], b);
    } else {
      SubsequenceTail(a, b[1..]);
      SubsequenceSkip(a[1..], b);
    }
  }

  /** Filtering by p and by its negation splits s: together the two parts
      hold every element exactly as often as s does. */
  lemma {:induction false} FilterPartition<T>(s: seq<T>, p: T -> bool, q: T -> bool)
    requires forall x :: q(x) == !p(x)
    ensures multiset(Filter(s, p)) + multiset(Filter(s, q)) == multiset(s)
    ensures |Filter(s, p)| + |Filter(s, q)| == |s|
  {
    if s != [] {
      FilterPartition(s[1..], p, q);
      assert s == [s[0]] + s[1..];
    }
  }
  /** Splitting by a predicate and its complement loses nothing, keeps both
      halves in order, and sends each element to the side it satisfies. */
  lemma FilterSplit<T>(s: seq<T>, p: T -> bool, q: T -> bool)
    requires forall x :: q(x) == !p(x)
    ensures multiset(Filter(s, p)) + multiset(Filter(s, q)) == multiset(s)
    ensures IsSubsequence(Filter(s, p), s) && IsSubsequence(Filter(s, q), s)
    ensures forall i | 0 <= i < |Filter(s, p)| :: p(Filter(s, p)[i])
    ensures forall i | 0 <= i < |Filter(s, q)| :: q(Filter(s, q)[i])
  {
    FilterPartition(s, p, q);
    FilterIsSubsequence(s, p);
    FilterIsSubsequence(s, q);
    FilterSpec(s, p);
    FilterSpec(s, q);
  }


  /** A subsequence stays one when the same element ends both lists, and
      when it ends only the longer one. */
  lemma {:induction false} SubsequenceExtend<T>(a: seq<T>, b: seq<T>, x: T)
    requires IsSubsequence(a, b)
    ensures IsSubsequence(a, b + [x]) && IsSubsequence(a + [x], b + [x])
    decreases |a| + |b|
  {
    if a == [] {
      if b != [] {
        assert (b + [x])[1..] == b[1..] + [x];
        SubsequenceExtend(a, b[1..], x);
        assert a + [x] == [x];
      } else {
        var one: seq<T> := [x];
        assert one[1..] == [];
      }
    } else {
      assert (b + [x])[1..] == b[1..] + [x];
      assert (a + [x])[0] == a[0] && (a + [x])[1..] == a[1..] + [x];
      if a[0] == b[0] {
        SubsequenceExtend(a[1..], b[1..], x);
      } else {
        SubsequenceExtend(a, b[1..], x);
      }
    }
  }

  /** What `Series.unique()` returns: each value of s exactly once, in the
      order of the values' first occurrences. */
  ghost predicate UniqueOf<T>(r: seq<T>, s: seq<T>) {
    && Distinct(r)
    && (forall i | 0 <= i < |r| :: r[i] in s)
    && (forall i | 0 <= i < |s| :: s[i] in r)
    && IsSubsequence(r, s)
    && FirstOrder(r, s)
  }

  /** The elements of r appear in the order of their first occurrences in
      s: wherever a later element of r occurs in s, every earlier one has
      already occurred. */
  ghost predicate FirstOrder<T>(r: seq<T>, s: seq<T>) {
    forall i, j, b | 0 <= i < j < |r| && 0 <= b < |s| && s[b] == r[j] :: r[i] in s[..b]
  }

  /** The list of first occurrences after meeting one more element. */
  function Extend<T(==)>(u: seq<T>, last: T): seq<T> {
    if last in u then u else u + [last]
  }

  /** Meeting one more element keeps the list of first occurrences, extended
      by the element when it is new. */
  lemma UniqueStep<T>(s: seq<T>, u: seq<T>)
    requires s != [] && UniqueOf(u, s[..|s| - 1])
    ensures UniqueOf(Extend(u, s[|s| - 1]), s)
  {
    var init, last := s[..|s| - 1], s[|s| - 1];
    assert s == init + [last];
    SubsequenceExtend(u, init, last);
    UniqueStepMembers(init, last, u);
    UniqueStepOrder(init, last, u);
  }

  lemma UniqueStepMembers<T>(init: seq<T>, last: T, u: seq<T>)
    requires Distinct(u)
    requires forall i | 0 <= i < |u| :: u[i] in init
    requires forall i | 0 <= i < |init| :: init[i] in u
    ensures Distinct(Extend(u, last))
    ensures forall i | 0 <= i < |Extend(u, last)| :: Extend(u, last)[i] in init + [last]
    ensures forall i | 0 <= i < |init + [last]| :: (init + [last])[i] in Extend(u, last)
  {
    var r, s := Extend(u, last), init + [last];
    forall i | 0 <= i < |s| ensures s[i] in r {
      if i < |init| {
        assert s[i] == init[i];
      }
    }
  }

  lemma UniqueStepOrder<T>(init: seq<T>, last: T, u: seq<T>)
    requires forall i | 0 <= i < |u| :: u[i] in init
    requires forall i | 0 <= i < |init| :: init[i] in u
    requires FirstOrder(u, init)
    ensures FirstOrder(Extend(u, last), init + [last])
  {
    var r, s := Extend(u, last), init + [last];
    assert s[..|init|] == init;
    forall i, j, b | 0 <= i < j < |r| && 0 <= b < |s| && s[b] == r[j]
      ensures r[i] in s[..b]
    {
      if b < |init| {
        assert s[..b] == init[..b] && init[b] == s[b];
        assert r[i] == u[i] && r[j] == u[j];
      } else if last in u {
        assert r[j] == u[j] && u[j] in init;
        var c :| 0 <= c < |init| && init[c] == u[j];
        assert r[i] in init[..c];
        assert init[..c] <= s[..b];
      } else {
        assert r[i] == u[i] && u[i] in init;
      }
    }
  }

  /** pandas `Series.unique()`: each value once, at its first occurrence. */
  function Unique<T(==)>(s: seq<T>): (r: seq<T>)
    ensures UniqueOf(r, s)
  {
    if s == [] then []
    else
      var u := Unique(s[..|s| - 1]);
      UniqueStep(s, u);
      Extend(u, s[|s| - 1])
  }

  /** Unique read one element at a time, from the left. */
  lemma UniqueSnoc<T>(s: seq<T>, x: T)
    ensures Unique(s + [x]) == Extend(Unique(s), x)
  {
    assert (s + [x])[..|s|] == s;
  }

  /** A repeated value stays where it first appeared. */
  lemma UniqueExample()
    ensures Unique(["A", "B", "A"]) == ["A", "B"]
  {
    UniqueSnoc([], "A");
    UniqueSnoc(["A"], "B");
    UniqueSnoc(["A", "B"], "A");
    assert [] + ["A"] == ["A"] && ["A"] + ["B"] == ["A", "B"];
    assert ["A", "B"] + ["A"] == ["A", "B", "A"];
  }

  /** A duplicate-free list counts each of its elements once. */
  lemma {:induction false} DistinctMultiset<T>(s: seq<T>)
    requires Distinct(s)
    ensures multiset(s) == multiset(set x | x in s)
  {
    if s != [] {
      var t := s[1..];
      assert Distinct(t);
      DistinctMultiset(t);
      assert s == [s[0]] + t;
      assert s[0] !in t;
      assert (set x | x in s) == {s[0]} + (set x | x in t);
    }
  }

  /** Rearranging a duplicate-free list cannot create a duplicate. */
  lemma DistinctPermutation<T>(a: seq<T>, b: seq<T>)
    requires multiset(a) == multiset(b) && Distinct(a)
    ensures Distinct(b)
  {
    forall i, j | 0 <= i < j < |b| ensures b[i] != b[j] {
      if b[i] == b[j] {
        var y := b[i];
        assert b == b[..j] + b[j..];
        assert y in b[..j] && y in b[j..];
        assert multiset(b)[y] == multiset(b[..j])[y] + multiset(b[j..])[y];
        assert multiset(a)[y] >= 2;
        DistinctMultiset(a);
        assert false;
      }
    }
  }
}
