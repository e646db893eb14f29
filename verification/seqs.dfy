/** Facts about sequences used by several analysers: distinct counts
    (Python's `len(set(xs)) < len(xs)`) and exact arithmetic means
    (`statistics.mean`). */
module Seqs {
  import opened Results

  /** The values occurring in `s`, as `set(s)` computes them. */
  function Distinct<T>(s: seq<T>): set<T>
  {
    set x | x in s
  }

  /** Some value occurs at two different positions of `s`. */
  predicate HasDuplicate<T(==)>(s: seq<T>)
  {
    exists i, j :: 0 <= i < j < |s| && s[i] == s[j]
  }

  lemma {:induction false} DistinctOfCons<T>(s: seq<T>)
    requires |s| > 0
    ensures Distinct(s) == {s[0]} + Distinct(s[1..])
  {
  }

  lemma {:induction false} HasDuplicateOfCons<T>(s: seq<T>)
    requires |s| > 0
    ensures HasDuplicate(s) <==> s[0] in s[1..] || HasDuplicate(s[1..])
  {
  }

  /** The distinct count never exceeds the length. */
  lemma {:induction false} DistinctAtMostLength<T>(s: seq<T>)
    ensures |Distinct(s)| <= |s|
    decreases |s|
  {
    if |s| == 0 {
      assert Distinct(s) == {};
    } else {
      DistinctOfCons(s);
      DistinctAtMostLength(s[1..]);
    }
  }

  /** Python's duplicate test `len(set(s)) < len(s)` holds exactly when two
      positions of `s` hold the same value. */
  lemma {:induction false} FewerDistinctIffDuplicate<T>(s: seq<T>)
    ensures |Distinct(s)| < |s| <==> HasDuplicate(s)
    decreases |s|
  {
    if |s| == 0 {
      assert Distinct(s) == {};
    } else {
      var t := s[1..];
      DistinctOfCons(s);
      HasDuplicateOfCons(s);
      FewerDistinctIffDuplicate(t);
      DistinctAtMostLength(t);
      if s[0] in t {
        assert s[0] in Distinct(t);
        assert Distinct(s) == Distinct(t);
      } else {
        assert s[0] !in Distinct(t);
        assert |Distinct(s)| == 1 + |Distinct(t)|;
      }
    }
  }

  /** `v` sits at two different positions of `s`. */
  predicate Repeated<T(==)>(s: seq<T>, v: T)
  {
    exists i, j :: 0 <= i < j < |s| && s[i] == v && s[j] == v
  }

  /** A value occurs at least twice exactly when two positions hold it. */
  lemma {:induction false} CountAtLeastTwoIffRepeated<T>(s: seq<T>, v: T)
    ensures multiset(s)[v] >= 2 <==> Repeated(s, v)
    decreases |s|
  {
    if |s| > 0 {
      var t := s[1..];
      assert s == [s[0]] + t;
      assert multiset(s)[v] == (if s[0] == v then 1 else 0) + multiset(t)[v];
      CountAtLeastTwoIffRepeated(t, v);
      if Repeated(t, v) {
        var i, j :| 0 <= i < j < |t| && t[i] == v && t[j] == v;
        assert s[i + 1] == v && s[j + 1] == v;
      }
      if s[0] == v && v in t {
        var j :| 0 <= j < |t| && t[j] == v;
        assert s[j + 1] == v;
      }
      if Repeated(s, v) {
        var i, j :| 0 <= i < j < |s| && s[i] == v && s[j] == v;
        if i == 0 {
          assert t[j - 1] == v;
        } else {
          assert t[i - 1] == v && t[j - 1] == v;
        }
      }
    }
  }

  /** Reordering a sequence never changes whether it has a duplicate. */
  lemma DuplicateIgnoresOrder<T>(a: seq<T>, b: seq<T>)
    requires multiset(a) == multiset(b)
    ensures HasDuplicate(a) <==> HasDuplicate(b)
  {
    assert |a| == |multiset(a)| == |multiset(b)| == |b|;
    assert Distinct(a) == Distinct(b) by {
      forall x ensures x in a <==> x in b {
        assert x in a <==> x in multiset(a);
        assert x in b <==> x in multiset(b);
      }
    }
    FewerDistinctIffDuplicate(a);
    FewerDistinctIffDuplicate(b);
  }

  /** Sum of a sequence of reals. */
  function Sum(xs: seq<real>): real
  {
    if |xs| == 0 then 0.0 else xs[0] + Sum(xs[1..])
  }

  /** `statistics.mean`: undefined (Python raises StatisticsError) on an
      empty sequence, otherwise the exact arithmetic mean. */
  function Mean(xs: seq<real>): (m: Option<real>)
    ensures m.None? <==> |xs| == 0
    ensures m.Some? ==> m.value * (|xs| as real) == Sum(xs)
  {
    if |xs| == 0 then None else Some(Sum(xs) / |xs| as real)
  }

  /** Bounds on the elements bound the sum. */
  lemma {:induction false} SumBounds(xs: seq<real>, lo: real, hi: real)
    requires forall i :: 0 <= i < |xs| ==> lo <= xs[i] <= hi
    ensures (|xs| as real) * lo <= Sum(xs) <= (|xs| as real) * hi
    decreases |xs|
  {
    if |xs| > 0 {
      SumBounds(xs[1..], lo, hi);
      assert lo <= xs[0] <= hi;
    }
  }

  /** A mean lies between the smallest and largest bound of its samples. */
  lemma MeanBounds(xs: seq<real>, lo: real, hi: real)
    requires |xs| > 0
    requires forall i :: 0 <= i < |xs| ==> lo <= xs[i] <= hi
    ensures Mean(xs).Some? && lo <= Mean(xs).value <= hi
  {
    SumBounds(xs, lo, hi);
    var n := |xs| as real;
    var m := Mean(xs).value;
    assert m * n == Sum(xs);
  }

  /** The mean of samples that are all `c` is `c`. */
  lemma {:induction false} MeanOfConstant(xs: seq<real>, c: real)
    requires |xs| > 0
    requires forall i :: 0 <= i < |xs| ==> xs[i] == c
    ensures Mean(xs) == Some(c)
  {
    MeanBounds(xs, c, c);
  }
}
