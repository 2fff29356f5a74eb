/** Choosing k out of n indices, and how many ways there are. */
module Combinations {
  import opened Common

  type Indices = seq<nat>

  /** An increasing list of `k` indices below `n`. */
  predicate IsChoice(n: nat, k: nat, s: Indices) {
    && |s| == k
    && (forall i | 0 <= i < |s| :: s[i] < n)
    && (forall i, j | 0 <= i < j < |s| :: s[i] < s[j])
  }

  /** Extensions of `current` by increasing indices from `i` on, in the order they are found. */
  function ChooseFrom(n: nat, k: nat, i: nat, current: Indices): seq<Indices>
    requires i <= n && |current| <= k
    decreases n - i
  {
    if |current| == k then [current]
    else if k - |current| > n - i then []
    else ChooseFrom(n, k, i + 1, current + [i]) + ChooseFrom(n, k, i + 1, current)
  }

  lemma ChooseFromParts(n: nat, k: nat, i: nat, current: Indices)
    requires i <= n && |current| <= k
    ensures |current| == k ==> ChooseFrom(n, k, i, current) == [current]
    ensures |current| < k && k - |current| > n - i ==> ChooseFrom(n, k, i, current) == []
    ensures |current| < k && k - |current| <= n - i ==>
              ChooseFrom(n, k, i, current)
              == ChooseFrom(n, k, i + 1, current + [i]) + ChooseFrom(n, k, i + 1, current)
  {
  }

  function ChooseKOutOfN(n: nat, k: nat): seq<Indices> {
    ChooseFrom(n, k, 0, [])
  }

  class OrderedSet {
    var elements: seq<Indices>

    constructor ()
      ensures elements == []
    {
      elements := [];
    }

    method Add(o: Indices)
      modifies this
      ensures elements == old(elements) + [o]
    {
      elements := elements + [o];
    }
  }

  /** The recursion adds every subgroup it completes to one shared set. */
  method Choose(n: nat, target: nat, i: nat, current: Indices, subGroups: OrderedSet)
    requires i <= n && |current| <= target
    modifies subGroups
    ensures subGroups.elements == old(subGroups.elements) + ChooseFrom(n, target, i, current)
    decreases n - i
  {
    hide ChooseFrom;
    ChooseFromParts(n, target, i, current);
    if |current| == target {
      subGroups.Add(current);
      return;
    }
    var left := n - i;
    if target - |current| > left {
      return;
    }
    Choose(n, target, i + 1, current + [i], subGroups);
    Choose(n, target, i + 1, current, subGroups);
  }

  method ComputeChooseKOutOfN(n: nat, k: nat) returns (res: seq<Indices>)
    ensures res == ChooseKOutOfN(n, k)
  {
    var subGroups := new OrderedSet();
    Choose(n, k, 0, [], subGroups);
    res := subGroups.elements;
  }

  /** `s` continues `current` with indices that are at least `i`. */
  predicate Continues(n: nat, k: nat, i: nat, current: Indices, s: Indices) {
    && IsChoice(n, k, s)
    && current <= s
    && forall j | |current| <= j < |s| :: i <= s[j]
  }

  predicate Below(current: Indices, i: nat) {
    && (forall j | 0 <= j < |current| :: current[j] < i)
    && (forall j, l | 0 <= j < l < |current| :: current[j] < current[l])
  }

  lemma {:induction false} ChooseFromLists(n: nat, k: nat, i: nat, current: Indices, s: Indices)
    requires i <= n && |current| <= k && Below(current, i)
    ensures s in ChooseFrom(n, k, i, current) <==> Continues(n, k, i, current, s)
    decreases n - i
  {
    if |current| == k {
      assert current <= s && |s| == k ==> s == current;
    } else if k - |current| > n - i {
      if Continues(n, k, i, current, s) {
        LastIsLarge(n, k, i, current, s);
      }
    } else {
      ChooseFromLists(n, k, i + 1, current + [i], s);
      ChooseFromLists(n, k, i + 1, current, s);
      if Continues(n, k, i, current, s) {
        if s[|current|] == i {
          assert current + [i] <= s;
        }
      }
    }
  }

  lemma LastIsLarge(n: nat, k: nat, i: nat, current: Indices, s: Indices)
    requires Continues(n, k, i, current, s) && |current| < k
    ensures k - |current| <= n - i
  {
    IncreasingGap(s, |current|, k - 1);
  }

  lemma {:induction false} IncreasingGap(s: Indices, a: nat, b: nat)
    requires forall i, j | 0 <= i < j < |s| :: s[i] < s[j]
    requires a <= b < |s|
    ensures s[a] + (b - a) <= s[b]
    decreases b - a
  {
    if a < b {
      IncreasingGap(s, a, b - 1);
    }
  }

  lemma NoRepeatsConcat<T>(s: seq<T>, t: seq<T>)
    requires NoRepeats(s) && NoRepeats(t)
    requires forall x | x in s :: x !in t
    ensures NoRepeats(s + t)
  {
    forall i, j | 0 <= i < j < |s + t| ensures (s + t)[i] != (s + t)[j] {
      if i < |s| <= j {
        assert s[i] in s && t[j - |s|] in t;
      }
    }
  }

  lemma {:induction false} ChooseFromNoRepeats(n: nat, k: nat, i: nat, current: Indices)
    requires i <= n && |current| <= k && Below(current, i)
    ensures NoRepeats(ChooseFrom(n, k, i, current))
    decreases n - i
  {
    if |current| < k && k - |current| <= n - i {
      var with, without := ChooseFrom(n, k, i + 1, current + [i]), ChooseFrom(n, k, i + 1, current);
      ChooseFromNoRepeats(n, k, i + 1, current + [i]);
      ChooseFromNoRepeats(n, k, i + 1, current);
      forall s | s in with ensures s !in without {
        ChooseFromLists(n, k, i + 1, current + [i], s);
        ChooseFromLists(n, k, i + 1, current, s);
        assert s[|current|] == (current + [i])[|current|];
      }
      NoRepeatsConcat(with, without);
    }
  }

  /** Every way to choose k out of n indices is listed, nothing else is, and none is listed twice. */
  lemma ChooseKOutOfNIsExact(n: nat, k: nat)
    ensures forall s :: s in ChooseKOutOfN(n, k) <==> IsChoice(n, k, s)
    ensures NoRepeats(ChooseKOutOfN(n, k))
  {
    ChooseFromNoRepeats(n, k, 0, []);
    forall s ensures s in ChooseKOutOfN(n, k) <==> IsChoice(n, k, s) {
      ChooseFromLists(n, k, 0, [], s);
    }
  }

  // --------------------------------------------------------------------- counting

  function Binomial(n: nat, k: nat): nat {
    if k == 0 then 1
    else if n == 0 then 0
    else Binomial(n - 1, k - 1) + Binomial(n - 1, k)
  }

  predicate CombinationsExceed(n: nat, k: nat, threshold: int) {
    n >= k && Binomial(n, k) > threshold
  }

  lemma {:induction false} BinomialBeyond(n: nat, k: nat)
    requires n < k
    ensures Binomial(n, k) == 0
  {
    if n > 0 {
      BinomialBeyond(n - 1, k - 1);
      BinomialBeyond(n - 1, k);
    }
  }

  lemma {:induction false} BinomialAll(n: nat)
    ensures Binomial(n, n) == 1
  {
    if n > 0 {
      BinomialAll(n - 1);
      BinomialBeyond(n - 1, n);
    }
  }

  /** The binomial coefficient counts the choices that are listed. */
  lemma {:induction false} ChooseFromCount(n: nat, k: nat, i: nat, current: Indices)
    requires i <= n && |current| <= k
    ensures |ChooseFrom(n, k, i, current)| == Binomial(n - i, k - |current|)
    decreases n - i
  {
    if |current| < k {
      if k - |current| > n - i {
        BinomialBeyond(n - i, k - |current|);
      } else {
        ChooseFromCount(n, k, i + 1, current + [i]);
        ChooseFromCount(n, k, i + 1, current);
      }
    }
  }

  /** There are too many combinations exactly when more choices would be listed than the bound allows. */
  lemma ExceedExactlyWhen(n: nat, k: nat, bound: int)
    ensures CombinationsExceed(n, k, bound) <==> n >= k && |ChooseKOutOfN(n, k)| > bound
    ensures n < k ==> ChooseKOutOfN(n, k) == []
    ensures n >= k ==> ChooseKOutOfN(n, k) != []
  {
    hide ChooseFrom;
    ChooseFromCount(n, k, 0, []);
    if n < k {
      BinomialBeyond(n, k);
    } else {
      BinomialPositive(n, k);
    }
  }

  /** `s` is `t` with some elements left out. */
  ghost predicate Thinned<T>(s: seq<T>, t: seq<T>) {
    exists kept: Indices :: ThinnedBy(s, t, kept)
  }

  ghost predicate ThinnedBy<T>(s: seq<T>, t: seq<T>, kept: Indices) {
    IsChoice(|t|, |s|, kept) && forall i | 0 <= i < |s| :: s[i] == t[kept[i]]
  }

  lemma ThinnedItself<T>(s: seq<T>)
    ensures Thinned(s, s)
  {
    assert ThinnedBy(s, s, seq(|s|, i => i));
  }

  lemma ThinnedMore<T>(s: seq<T>, t: seq<T>, victim: nat)
    requires Thinned(s, t) && victim < |s|
    ensures Thinned(s[..victim] + s[victim + 1..], t)
  {
    var kept :| ThinnedBy(s, t, kept);
    assert ThinnedBy(s[..victim] + s[victim + 1..], t, kept[..victim] + kept[victim + 1..]);
  }

  /**
   Elements are dropped at random while more choices would be listed than the bound allows, and
   no longer: one more element would be one too many. With a bound of at least one this stops
   before fewer than `k` are left. With a smaller bound it stops one short of `k`, or, where
   nothing is to be chosen, fails when there is nothing left to drop.
   */
  method Prune<T>(elements: seq<T>, k: nat, bound: int) returns (ok: bool, kept: seq<T>)
    ensures ok <==> bound >= 1 || k > 0
    ensures ok ==> Thinned(kept, elements)
    ensures |elements| < k || |ChooseKOutOfN(|elements|, k)| <= bound ==> kept == elements
    ensures |kept| <= |elements| && (|kept| < |elements| ==> |ChooseKOutOfN(|kept| + 1, k)| > bound)
    ensures bound >= 1 ==> |ChooseKOutOfN(|kept|, k)| <= bound && (|elements| >= k ==> |kept| >= k)
    ensures ok && bound < 1 ==> |kept| == if |elements| >= k then k - 1 else |elements|
  {
    hide ChooseKOutOfN;
    kept := elements;
    ThinnedItself(elements);
    ExceedExactlyWhen(|elements|, k, bound);
    while CombinationsExceed(|kept|, k, bound)
      invariant Thinned(kept, elements)
      invariant |elements| >= k ==> |kept| >= (if bound >= 1 then k else k - 1)
      invariant |elements| < k ==> kept == elements
      invariant !CombinationsExceed(|elements|, k, bound) ==> kept == elements
      invariant |kept| <= |elements| && (|kept| < |elements| ==> |ChooseKOutOfN(|kept| + 1, k)| > bound)
      decreases |kept|
    {
      BinomialAll(k);
      ExceedExactlyWhen(|kept|, k, bound);
      if |kept| == 0 {
        return false, kept;
      }
      var victim :| 0 <= victim < |kept|;
      ThinnedMore(kept, elements, victim);
      kept := kept[..victim] + kept[victim + 1..];
    }
    ExceedExactlyWhen(|kept|, k, bound);
    ok := true;
  }

  lemma {:induction false} BinomialPositive(n: nat, k: nat)
    requires n >= k
    ensures Binomial(n, k) >= 1
  {
    if k > 0 {
      BinomialPositive(n - 1, k - 1);
    }
  }
}
