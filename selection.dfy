/**
 * Python built-ins the core uses on lists: max(..., key=...) (which keeps
 * the first of several equal maxima), the slice xs[:k] with Python's rule
 * for negative k, and list.remove(x).
 */
module Selection {

  /**
   * Index that max(range(len(xs)), key=xs.__getitem__) returns: Python's
   * max scans left to right and replaces its candidate only on a strictly
   * greater value, so the result is the first maximal position.
   */
  function ArgMax(xs: seq<real>): (i: nat)
    requires |xs| > 0
    ensures i < |xs|
    ensures forall j :: 0 <= j < |xs| ==> xs[j] <= xs[i]
    ensures forall j :: 0 <= j < i ==> xs[j] < xs[i]
  {
    if |xs| == 1 then 0
    else
      var k := ArgMax(xs[..|xs| - 1]);
      if xs[|xs| - 1] > xs[k] then |xs| - 1 else k
  }

  /** The two properties of ArgMax pin the index down. */
  lemma ArgMaxUnique(xs: seq<real>, i: nat)
    requires i < |xs|
    requires forall j :: 0 <= j < |xs| ==> xs[j] <= xs[i]
    requires forall j :: 0 <= j < i ==> xs[j] < xs[i]
    ensures ArgMax(xs) == i
  {
  }

  /** Python's xs[:k], where a negative k counts from the end. */
  function SliceTo<T>(xs: seq<T>, k: int): (r: seq<T>)
    ensures |r| <= |xs| && r == xs[..|r|]
    ensures k >= 0 ==> |r| == if k < |xs| then k else |xs|
    ensures k < 0 ==> |r| == if |xs| + k > 0 then |xs| + k else 0
  {
    if k >= 0 then (if k < |xs| then xs[..k] else xs)
    else if |xs| + k > 0 then xs[..|xs| + k]
    else []
  }

  ghost predicate Distinct<T>(xs: seq<T>) {
    forall i, j :: 0 <= i < j < |xs| ==> xs[i] != xs[j]
  }

  /** list.index(x): the first position holding x. */
  function FirstIndex<T(==)>(xs: seq<T>, x: T): (i: nat)
    requires x in xs
    ensures i < |xs| && xs[i] == x
    ensures forall j :: 0 <= j < i ==> xs[j] != x
  {
    if xs[0] == x then 0
    else
      var i := 1 + FirstIndex(xs[1..], x);
      assert forall j :: 0 < j < i ==> xs[j] == xs[1..][j - 1];
      i
  }

  /** A position holding x with no earlier x is the first index. */
  lemma FirstIndexUnique<T>(xs: seq<T>, x: T, i: nat)
    requires i < |xs| && xs[i] == x
    requires forall j :: 0 <= j < i ==> xs[j] != x
    ensures FirstIndex(xs, x) == i
  {
    var f := FirstIndex(xs, x);
    assert !(f < i) && !(i < f);
  }

  /**
   * list.remove(x): drops the first occurrence of x and keeps every other
   * element in its order.
   */
  function Remove<T(==)>(xs: seq<T>, x: T): (r: seq<T>)
    requires x in xs
    ensures |r| == |xs| - 1
    ensures multiset(r) == multiset(xs) - multiset{x}
    ensures r == xs[..FirstIndex(xs, x)] + xs[FirstIndex(xs, x) + 1..]
  {
    MultisetSplit(xs, FirstIndex(xs, x));
    assert xs == [xs[0]] + xs[1..];
    if xs[0] == x then xs[1..]
    else
      var t := Remove(xs[1..], x);
      RemoveStep(xs, x, FirstIndex(xs[1..], x), t);
      [xs[0]] + t
  }

  /** list.remove(x) keeps every other element. */
  lemma RemoveKeeps<T>(xs: seq<T>, x: T, y: T)
    requires x in xs && y in xs && y != x
    ensures y in Remove(xs, x)
  {
    assert y in multiset(Remove(xs, x));
  }

  /** Removing past a head that is not x: the first occurrence moves one place right. */
  lemma RemoveStep<T>(xs: seq<T>, x: T, i: nat, t: seq<T>)
    requires xs != [] && xs[0] != x && x in xs[1..] && i == FirstIndex(xs[1..], x)
    requires t == xs[1..][..i] + xs[1..][i + 1..]
    ensures x in xs && FirstIndex(xs, x) == i + 1
    ensures [xs[0]] + t == xs[..i + 1] + xs[i + 2..]
  {
    assert xs[..i + 1] == [xs[0]] + xs[1..][..i];
    assert xs[i + 2..] == xs[1..][i + 1..];
  }

  /** [m for m in xs if m not in ys]: the elements of xs outside ys, in their order in xs. */
  function Without<T(==)>(xs: seq<T>, ys: seq<T>): (r: seq<T>)
    ensures |r| <= |xs|
    ensures forall i :: 0 <= i < |r| ==> r[i] in xs && r[i] !in ys
    ensures forall i :: 0 <= i < |xs| && xs[i] !in ys ==> xs[i] in r
  {
    if xs == [] then []
    else
      assert forall i :: 0 < i < |xs| ==> xs[i] == xs[1..][i - 1];
      (if xs[0] in ys then [] else [xs[0]]) + Without(xs[1..], ys)
  }

  /** Leaving out elements none of which occur changes nothing. */
  lemma {:induction false} WithoutNone<T>(xs: seq<T>, ys: seq<T>)
    requires forall i :: 0 <= i < |xs| ==> xs[i] !in ys
    ensures Without(xs, ys) == xs
  {
    if xs != [] {
      WithoutNone(xs[1..], ys);
    }
  }

  /** Leaving out one more element that does not occur changes nothing. */
  lemma {:induction false} WithoutAbsent<T>(xs: seq<T>, ys: seq<T>, x: T)
    requires x !in xs
    ensures Without(xs, ys + [x]) == Without(xs, ys)
  {
    if xs != [] {
      assert xs[0] in ys + [x] <==> xs[0] in ys;
      WithoutAbsent(xs[1..], ys, x);
    }
  }

  /**
   * On a repeat-free list, list.remove(x) on the elements outside ys leaves
   * the elements outside ys + [x].
   */
  lemma {:induction false} RemoveWithout<T>(xs: seq<T>, ys: seq<T>, x: T)
    requires Distinct(xs) && x in xs && x !in ys
    ensures x in Without(xs, ys) && Remove(Without(xs, ys), x) == Without(xs, ys + [x])
  {
    var k :| 0 <= k < |xs| && xs[k] == x;
    assert xs[k] in Without(xs, ys);
    DistinctTail(xs);
    WithoutCons(xs, ys);
    WithoutCons(xs, ys + [x]);
    assert xs[0] in ys + [x] <==> xs[0] in ys || xs[0] == x;
    if xs[0] == x {
      WithoutAbsent(xs[1..], ys, x);
      RemoveHead(Without(xs[1..], ys), x);
    } else {
      assert xs[1..][k - 1] == x;
      RemoveWithout(xs[1..], ys, x);
      if xs[0] !in ys {
        RemovePastHead(xs[0], Without(xs[1..], ys), x);
      } else {
        assert [] + Without(xs[1..], ys) == Without(xs[1..], ys);
        assert [] + Without(xs[1..], ys + [x]) == Without(xs[1..], ys + [x]);
      }
    }
  }

  /** Without, one step from the front. */
  lemma WithoutCons<T>(xs: seq<T>, ys: seq<T>)
    requires xs != []
    ensures Without(xs, ys) == (if xs[0] in ys then [] else [xs[0]]) + Without(xs[1..], ys)
  {
  }

  /** The tail of a repeat-free list is repeat-free and does not hold its head. */
  lemma DistinctTail<T>(xs: seq<T>)
    requires xs != [] && Distinct(xs)
    ensures Distinct(xs[1..]) && xs[0] !in xs[1..]
  {
    forall i | 0 <= i < |xs[1..]| ensures xs[1..][i] == xs[i + 1] { }
  }

  /** list.remove(x) drops a head that is x. */
  lemma RemoveHead<T>(t: seq<T>, x: T)
    ensures Remove([x] + t, x) == t
  {
    assert ([x] + t)[1..] == t;
  }

  /** list.remove(x) passes over a head that is not x. */
  lemma RemovePastHead<T>(h: T, t: seq<T>, x: T)
    requires h != x && x in t
    ensures Remove([h] + t, x) == [h] + Remove(t, x)
  {
    assert ([h] + t)[1..] == t;
  }

  lemma {:induction false} DistinctByMultiset<T>(xs: seq<T>)
    requires forall x :: multiset(xs)[x] <= 1
    ensures Distinct(xs)
  {
    forall i, j | 0 <= i < j < |xs| ensures xs[i] != xs[j] {
      assert xs == xs[..i] + [xs[i]] + xs[i + 1..j] + [xs[j]] + xs[j + 1..];
      assert multiset(xs)[xs[i]] >= 1 + multiset([xs[j]])[xs[i]];
    }
  }

  lemma {:induction false} MultisetOfDistinct<T>(xs: seq<T>)
    requires Distinct(xs)
    ensures forall x :: multiset(xs)[x] <= 1
  {
    if xs != [] {
      var last := xs[|xs| - 1];
      var init := xs[..|xs| - 1];
      assert xs == init + [last];
      MultisetOfDistinct(init);
      assert last !in init;
    }
  }

  /**
   * Moving one element of the remainder to the chosen prefix keeps the
   * whole arrangement free of repeats.
   */
  lemma MoveKeepsDistinct<T>(chosen: seq<T>, rest: seq<T>, x: T)
    requires Distinct(chosen + rest) && x in rest
    ensures Distinct(chosen + [x] + Remove(rest, x))
  {
    MultisetOfDistinct(chosen + rest);
    assert multiset(chosen + [x] + Remove(rest, x)) == multiset(chosen + rest);
    DistinctByMultiset(chosen + [x] + Remove(rest, x));
  }

  /** Taking out the element at k leaves the rest of the multiset. */
  lemma MultisetSplit<T>(xs: seq<T>, k: nat)
    requires k < |xs|
    ensures multiset(xs) == multiset(xs[..k] + xs[k + 1..]) + multiset{xs[k]}
    ensures multiset(xs[..k] + xs[k + 1..]) == multiset(xs) - multiset{xs[k]}
  {
    assert xs == xs[..k] + [xs[k]] + xs[k + 1..];
  }

  /** The element after position k moves down one place when the element at k is taken out. */
  lemma DropAt<T>(xs: seq<T>, k: nat)
    requires k < |xs|
    ensures var rest := xs[..k] + xs[k + 1..];
      && |rest| == |xs| - 1
      && forall p :: 0 <= p < |rest| ==> rest[p] == if p < k then xs[p] else xs[p + 1]
  {
  }

  /** A quotient of a share t of a positive whole d lies in [0, 1]. */
  lemma QuotientUnit(q: real, d: real, t: real)
    requires d > 0.0 && q * d == t && 0.0 <= t <= d
    ensures 0.0 <= q <= 1.0
  {
  }

  /** sum(xs) */
  function Sum(xs: seq<real>): real {
    if xs == [] then 0.0 else Sum(xs[..|xs| - 1]) + xs[|xs| - 1]
  }

  /** sum(xs) / len(xs) */
  function Mean(xs: seq<real>): real
    requires |xs| > 0
  {
    Sum(xs) / |xs| as real
  }

  lemma {:induction false} SumBounds(xs: seq<real>, lo: real, hi: real)
    requires forall i :: 0 <= i < |xs| ==> lo <= xs[i] <= hi
    ensures lo * |xs| as real <= Sum(xs) <= hi * |xs| as real
  {
    if xs != [] {
      SumBounds(xs[..|xs| - 1], lo, hi);
    }
  }

  /** A mean of values in [lo, hi] lies in [lo, hi]. */
  lemma MeanBounds(xs: seq<real>, lo: real, hi: real)
    requires |xs| > 0
    requires forall i :: 0 <= i < |xs| ==> lo <= xs[i] <= hi
    ensures lo <= Mean(xs) <= hi
  {
    SumBounds(xs, lo, hi);
    var n := |xs| as real;
    assert Mean(xs) * n == Sum(xs);
    assert lo * n <= Mean(xs) * n <= hi * n;
  }
}
