/** `itertools.combinations` over a list with repeated elements, the binomial
    coefficient that counts its output, and the fact that every size-k
    sub-multiset of the list (every outcome of `random.sample`) is, as a
    Counter, one of the enumerated combinations. */
module Combinatorics {

  /** C(n, k) by Pascal's rule; zero when k > n. */
  function Binom(n: nat, k: nat): nat
    decreases n
  {
    if k == 0 then 1
    else if n == 0 then 0
    else Binom(n - 1, k - 1) + Binom(n - 1, k)
  }

  /** C(n, k) is positive exactly when k <= n. */
  lemma {:induction false} BinomPositive(n: nat, k: nat)
    ensures Binom(n, k) > 0 <==> k <= n
    decreases n
  {
    if k != 0 && n != 0 {
      BinomPositive(n - 1, k - 1);
      BinomPositive(n - 1, k);
    }
  }

  /** `[x] + c` for every `c` of `cs`. */
  function Prepend<T>(x: T, cs: seq<seq<T>>): seq<seq<T>>
  {
    seq(|cs|, i requires 0 <= i < |cs| => [x] + cs[i])
  }

  /** `itertools.combinations(s, k)`: position-wise choices, in lexicographic
      order of positions; duplicates of equal elements are kept. */
  function Combinations<T>(s: seq<T>, k: nat): seq<seq<T>>
    decreases |s|
  {
    if k == 0 then [[]]
    else if |s| == 0 then []
    else Prepend(s[0], Combinations(s[1..], k - 1)) + Combinations(s[1..], k)
  }

  /** There are exactly C(|s|, k) combinations. */
  lemma {:induction false} CombinationsCount<T>(s: seq<T>, k: nat)
    ensures |Combinations(s, k)| == Binom(|s|, k)
    decreases |s|
  {
    if k != 0 && |s| != 0 {
      CombinationsCount(s[1..], k - 1);
      CombinationsCount(s[1..], k);
    }
  }

  /** The i-th combination has k elements drawn from s. */
  lemma {:induction false} CombinationAt<T>(s: seq<T>, k: nat, i: nat)
    requires i < |Combinations(s, k)|
    ensures |Combinations(s, k)[i]| == k && multiset(Combinations(s, k)[i]) <= multiset(s)
    decreases |s|
  {
    if k != 0 && |s| != 0 {
      var x, t := s[0], s[1..];
      var left, right := Combinations(t, k - 1), Combinations(t, k);
      assert Combinations(s, k) == Prepend(x, left) + right;
      assert multiset(s) == multiset{x} + multiset(t) by { assert s == [x] + t; }
      if i < |left| {
        CombinationAt(t, k - 1, i);
        assert Combinations(s, k)[i] == [x] + left[i];
        assert multiset([x] + left[i]) == multiset{x} + multiset(left[i]);
      } else {
        CombinationAt(t, k, i - |left|);
        assert Combinations(s, k)[i] == right[i - |left|];
      }
    }
  }

  /** Every combination has k elements drawn from s. */
  lemma CombinationIsSubmultiset<T>(s: seq<T>, k: nat, c: seq<T>)
    requires c in Combinations(s, k)
    ensures |c| == k && multiset(c) <= multiset(s)
  {
    var i :| 0 <= i < |Combinations(s, k)| && Combinations(s, k)[i] == c;
    CombinationAt(s, k, i);
  }

  /** Both halves of the recursive case are combinations of the whole list. */
  lemma CombinationsCons<T>(s: seq<T>, k: nat, c: seq<T>)
    requires k > 0 && |s| > 0
    ensures c in Combinations(s[1..], k - 1) ==> [s[0]] + c in Combinations(s, k)
    ensures c in Combinations(s[1..], k) ==> c in Combinations(s, k)
  {
    var left, right := Combinations(s[1..], k - 1), Combinations(s[1..], k);
    assert Combinations(s, k) == Prepend(s[0], left) + right;
    if c in left {
      var i :| 0 <= i < |left| && left[i] == c;
      assert Combinations(s, k)[i] == [s[0]] + c;
    }
    if c in right {
      var i :| 0 <= i < |right| && right[i] == c;
      assert Combinations(s, k)[|left| + i] == c;
    }
  }

  /** Completeness: a sub-multiset of s of size k is the Counter of some combination. */
  lemma {:induction false} SubmultisetIsCombination<T>(s: seq<T>, m: multiset<T>)
    requires m <= multiset(s)
    ensures exists c :: c in Combinations(s, |m|) && multiset(c) == m
    decreases |s|, 1
  {
    if |m| == 0 {
      assert [] in Combinations(s, 0) && multiset([]) == m;
    } else if |s| == 0 {
      assert false;
    } else if s[0] in m {
      UseHead(s, m);
    } else {
      SkipHead(s, m);
    }
  }

  /** Inductive step when the sample uses the first element. */
  lemma {:induction false} UseHead<T>(s: seq<T>, m: multiset<T>)
    requires m <= multiset(s) && |s| > 0 && s[0] in m
    ensures exists c :: c in Combinations(s, |m|) && multiset(c) == m
    decreases |s|, 0
  {
    var x, t := s[0], s[1..];
    HeadRest(s);
    var m' := m - multiset{x};
    TakeOne(m, x, multiset(t));
    SubmultisetIsCombination(t, m');
    var c' :| c' in Combinations(t, |m'|) && multiset(c') == m';
    CombinationsCons(s, |m|, c');
    HeadRest([x] + c');
    assert ([x] + c')[1..] == c';
    assert [x] + c' in Combinations(s, |m|) && multiset([x] + c') == m;
  }

  /** A list is its head followed by its tail. */
  lemma HeadRest<T>(s: seq<T>)
    requires |s| > 0
    ensures multiset(s) == multiset{s[0]} + multiset(s[1..])
  {
    assert s == [s[0]] + s[1..];
  }

  /** Taking one `x` out of a sub-multiset of `{x} + rest` leaves a sub-multiset of `rest`. */
  lemma TakeOne<T>(m: multiset<T>, x: T, rest: multiset<T>)
    requires m <= multiset{x} + rest && x in m
    ensures m - multiset{x} <= rest && |m - multiset{x}| == |m| - 1 && m == (m - multiset{x}) + multiset{x}
  {
  }

  /** Inductive step when the sample leaves out the first element. */
  lemma {:induction false} SkipHead<T>(s: seq<T>, m: multiset<T>)
    requires m <= multiset(s) && |s| > 0 && |m| > 0 && s[0] !in m
    ensures exists c :: c in Combinations(s, |m|) && multiset(c) == m
    decreases |s|, 0
  {
    var x, t := s[0], s[1..];
    assert s == [x] + t;
    assert m <= multiset(t) by {
      assert multiset(s) == multiset{x} + multiset(t);
      forall y ensures m[y] <= multiset(t)[y] {
        if y == x { assert m[y] == 0; }
      }
    }
    SubmultisetIsCombination(t, m);
    var c :| c in Combinations(t, |m|) && multiset(c) == m;
    CombinationsCons(s, |m|, c);
  }

  /** `random.sample(population, k)`: some k elements of the list, without replacement. */
  predicate IsSample<T(==)>(pick: seq<T>, population: seq<T>, k: nat) {
    |pick| == k && multiset(pick) <= multiset(population)
  }

  /** A prefix is always a sample, so a sample exists whenever k <= |population|. */
  lemma PrefixIsSample<T>(population: seq<T>, k: nat)
    requires k <= |population|
    ensures IsSample(population[..k], population, k)
  {
    assert population == population[..k] + population[k..];
    assert multiset(population) == multiset(population[..k]) + multiset(population[k..]);
  }
}
