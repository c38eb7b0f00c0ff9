/** Finite sums of reals, and the order-independence of such sums. */
module Sums {

  function Sum(s: seq<real>): real
  {
    if |s| == 0 then 0.0 else Sum(s[..|s| - 1]) + s[|s| - 1]
  }

  lemma {:induction false} SumLessEqual(s: seq<real>, t: seq<real>)
    requires |s| == |t|
    requires forall i :: 0 <= i < |s| ==> s[i] <= t[i]
    ensures Sum(s) <= Sum(t)
  {
    if |s| != 0 {
      SumLessEqual(s[..|s| - 1], t[..|t| - 1]);
    }
  }

  /** One strictly smaller term makes the sum strictly smaller. */
  lemma {:induction false} SumLess(s: seq<real>, t: seq<real>, k: nat)
    requires |s| == |t| && k < |s|
    requires forall i :: 0 <= i < |s| ==> s[i] <= t[i]
    requires s[k] < t[k]
    ensures Sum(s) < Sum(t)
  {
    if k == |s| - 1 {
      SumLessEqual(s[..|s| - 1], t[..|t| - 1]);
    } else {
      SumLess(s[..|s| - 1], t[..|t| - 1], k);
    }
  }

  /** Two sums with term-by-term inequality and equal totals agree term by term. */
  lemma {:induction false} SumTight(s: seq<real>, t: seq<real>)
    requires |s| == |t|
    requires forall i :: 0 <= i < |s| ==> s[i] <= t[i]
    requires Sum(s) >= Sum(t)
    ensures s == t
  {
    forall i | 0 <= i < |s|
      ensures s[i] == t[i]
    {
      if s[i] < t[i] {
        SumLess(s, t, i);
      }
    }
  }

  lemma {:induction false} SumPlus(s: seq<real>, t: seq<real>, u: seq<real>)
    requires |s| == |t| == |u|
    requires forall i :: 0 <= i < |s| ==> u[i] == s[i] + t[i]
    ensures Sum(u) == Sum(s) + Sum(t)
  {
    if |s| != 0 {
      SumPlus(s[..|s| - 1], t[..|t| - 1], u[..|u| - 1]);
    }
  }

  /** Multiplication under a name, so that proofs about sums can set its arithmetic aside. */
  function Times(x: real, y: real): real
  {
    x * y
  }

  function Scale(c: real, s: seq<real>): (r: seq<real>)
    ensures |r| == |s| && forall i :: 0 <= i < |r| ==> r[i] == Times(c, s[i])
  {
    seq(|s|, i requires 0 <= i < |s| => Times(c, s[i]))
  }

  lemma {:induction false} SumScaled(c: real, s: seq<real>)
    ensures Sum(Scale(c, s)) == Times(c, Sum(s))
  {
    hide Times;
    if |s| == 0 {
      TimesZero(c);
    } else {
      var n := |s| - 1;
      SumScaled(c, s[..n]);
      assert Scale(c, s)[..n] == Scale(c, s[..n]);
      Distribute(c, Sum(s[..n]), s[n]);
    }
  }

  lemma TimesZero(c: real)
    ensures Times(c, 0.0) == 0.0
  {
  }

  lemma Distribute(c: real, x: real, y: real)
    ensures Times(c, x + y) == Times(c, x) + Times(c, y)
  {
  }

  lemma TimesOrder(a: real, b: real, f: real)
    requires a <= b && f >= 0.0
    ensures Times(a, f) <= Times(b, f)
  {
  }

  lemma Quotient(x: real, y: real)
    requires y > 0.0
    ensures Times(x / y, y) == x
  {
  }

  lemma TimesStrict(a: real, b: real, f: real)
    requires a < b && f > 0.0
    ensures Times(a, f) < Times(b, f)
  {
  }

  lemma {:induction false} SumConstant(s: seq<real>, c: real)
    requires forall i :: 0 <= i < |s| ==> s[i] == c
    ensures Sum(s) == |s| as real * c
  {
    if |s| != 0 {
      SumConstant(s[..|s| - 1], c);
    }
  }

  lemma {:induction false} SumReplaced(s: seq<real>, k: nat, x: real)
    requires k < |s|
    ensures Sum(s[k := x]) == Sum(s) - s[k] + x
  {
    var n := |s| - 1;
    if k == n {
      assert s[k := x][..n] == s[..n];
    } else {
      SumReplaced(s[..n], k, x);
      assert s[k := x][..n] == s[..n][k := x];
    }
  }

  /** Every term of a sum of non-negative terms is at most the sum. */
  lemma {:induction false} TermAtMostSum(s: seq<real>, k: nat)
    requires k < |s|
    requires forall i :: 0 <= i < |s| ==> s[i] >= 0.0
    ensures s[k] <= Sum(s)
  {
    var front := s[..|s| - 1];
    if k == |s| - 1 {
      var zeros := seq(|front|, i => 0.0);
      SumConstant(zeros, 0.0);
      SumLessEqual(zeros, front);
    } else {
      TermAtMostSum(front, k);
    }
  }

  lemma {:induction false} SumConcat(s: seq<real>, t: seq<real>)
    ensures Sum(s + t) == Sum(s) + Sum(t)
  {
    if |t| == 0 {
      assert s + t == s;
    } else {
      SumConcat(s, t[..|t| - 1]);
      assert (s + t)[..|s + t| - 1] == s + t[..|t| - 1];
    }
  }

  /** The image of a sequence under a function. */
  function Map<T, U>(s: seq<T>, g: T -> U): (r: seq<U>)
    ensures |r| == |s| && forall i :: 0 <= i < |s| ==> r[i] == g(s[i])
  {
    seq(|s|, i requires 0 <= i < |s| => g(s[i]))
  }

  lemma RemovedFrom<T>(left: seq<T>, x: T, right: seq<T>)
    ensures multiset(left + right) == multiset(left + [x] + right) - multiset{x}
  {
  }

  lemma SplitAt<T>(t: seq<T>, x: T) returns (left: seq<T>, right: seq<T>)
    requires x in multiset(t)
    ensures t == left + [x] + right
  {
    var k :| 0 <= k < |t| && t[k] == x;
    left, right := t[..k], t[k + 1..];
  }

  /** The last element of `s` taken out of both of two rearrangements of each other. */
  lemma TakeOut<T>(s: seq<T>, t: seq<T>) returns (left: seq<T>, right: seq<T>)
    requires s != [] && multiset(s) == multiset(t)
    ensures t == left + [s[|s| - 1]] + right
    ensures multiset(s[..|s| - 1]) == multiset(left + right)
  {
    var x, front := s[|s| - 1], s[..|s| - 1];
    assert s == front + [x];
    assert multiset(s) == multiset(front) + multiset{x};
    left, right := SplitAt(t, x);
    RemovedFrom(left, x, right);
  }

  /** A sum depends only on which terms occur and how often, not on their order. */
  lemma {:induction false} SumIgnoresOrder(s: seq<real>, t: seq<real>)
    requires multiset(s) == multiset(t)
    ensures Sum(s) == Sum(t)
  {
    if |s| == 0 {
      assert |multiset(t)| == 0;
    } else {
      var left, right := TakeOut(s, t);
      SumIgnoresOrder(s[..|s| - 1], left + right);
      SumWithout(left, s[|s| - 1], right);
    }
  }

  lemma {:induction false} SumWithout(left: seq<real>, x: real, right: seq<real>)
    ensures Sum(left + [x] + right) == Sum(left + right) + x
  {
    SumConcat(left, right);
    SumConcat(left, [x]);
    SumConcat(left + [x], right);
    assert Sum([x]) == x;
  }

  lemma {:induction false} MapIgnoresOrder<T, U>(s: seq<T>, t: seq<T>, g: T -> U)
    requires multiset(s) == multiset(t)
    ensures multiset(Map(s, g)) == multiset(Map(t, g))
  {
    hide Map;
    if |s| == 0 {
      assert |multiset(t)| == 0;
    } else {
      var x, front := s[|s| - 1], s[..|s| - 1];
      var left, right := TakeOut(s, t);
      MapIgnoresOrder(front, left + right, g);
      MapWithout(left, x, right, g);
      MapWithout(front, x, [], g);
      assert front + [x] + [] == s && front + [] == front;
    }
  }

  lemma MapWithout<T, U>(left: seq<T>, x: T, right: seq<T>, g: T -> U)
    ensures multiset(Map(left + [x] + right, g)) == multiset(Map(left + right, g)) + multiset{g(x)}
  {
    assert Map(left + [x] + right, g) == Map(left, g) + [g(x)] + Map(right, g);
    assert Map(left + right, g) == Map(left, g) + Map(right, g);
  }

  ghost predicate NoDuplicates<T>(s: seq<T>)
  {
    forall i, j :: 0 <= i < j < |s| ==> s[i] != s[j]
  }

  /** Two duplicate-free listings of the same elements are rearrangements of each other. */
  lemma SameElementsSameMultiset<T>(s: seq<T>, t: seq<T>)
    requires NoDuplicates(s) && NoDuplicates(t)
    requires forall x :: x in s <==> x in t
    ensures multiset(s) == multiset(t)
  {
    forall x
      ensures multiset(s)[x] == multiset(t)[x]
    {
      AtMostOnce(s, x);
      AtMostOnce(t, x);
    }
  }

  lemma AtMostOnce<T>(s: seq<T>, x: T)
    requires NoDuplicates(s)
    ensures multiset(s)[x] == if x in s then 1 else 0
  {
    if x in s {
      var left, right := SplitAt(s, x);
      assert forall i :: 0 <= i < |left| ==> s[i] == left[i] && s[i] != s[|left|];
      assert forall i :: 0 <= i < |right| ==> s[|left| + 1 + i] == right[i] && s[|left| + 1 + i] != s[|left|];
      assert x !in left && x !in right;
      RemovedFrom(left, x, right);
      assert multiset(left + right)[x] == 0;
      assert multiset(s) == multiset(left + right) + multiset{x};
    }
  }

  lemma {:induction false} SumMapStep<T>(s: seq<T>, k: nat, g: T -> real)
    requires k < |s|
    ensures Sum(Map(s[..k + 1], g)) == Sum(Map(s[..k], g)) + g(s[k])
  {
    assert s[..k + 1] == s[..k] + [s[k]];
    assert Map(s[..k + 1], g)[..k] == Map(s[..k], g);
  }

  // ---------------------------------------------------------------- weighted averages

  /** Term-by-term products. */
  function Products(x: seq<real>, w: seq<real>): (r: seq<real>)
    requires |x| == |w|
    ensures |r| == |x| && forall i :: 0 <= i < |r| ==> r[i] == Times(x[i], w[i])
  {
    seq(|x|, i requires 0 <= i < |x| => Times(x[i], w[i]))
  }

  lemma {:induction false} SumAtMost(x: seq<real>, w: seq<real>, hi: real)
    requires |x| == |w|
    requires forall i :: 0 <= i < |x| ==> w[i] >= 0.0 && (w[i] > 0.0 ==> x[i] <= hi)
    ensures Sum(Products(x, w)) <= Times(hi, Sum(w))
  {
    hide Times;
    forall i | 0 <= i < |x|
      ensures Products(x, w)[i] <= Scale(hi, w)[i]
    {
      ProductOrder(x[i], hi, w[i]);
    }
    SumLessEqual(Products(x, w), Scale(hi, w));
    SumScaled(hi, w);
  }

  lemma {:induction false} SumAtLeast(x: seq<real>, w: seq<real>, lo: real)
    requires |x| == |w|
    requires forall i :: 0 <= i < |x| ==> w[i] >= 0.0 && (w[i] > 0.0 ==> lo <= x[i])
    ensures Times(lo, Sum(w)) <= Sum(Products(x, w))
  {
    hide Times;
    forall i | 0 <= i < |x|
      ensures Scale(lo, w)[i] <= Products(x, w)[i]
    {
      ProductOrder(lo, x[i], w[i]);
    }
    SumLessEqual(Scale(lo, w), Products(x, w));
    SumScaled(lo, w);
  }

  lemma ProductOrder(a: real, b: real, w: real)
    requires w >= 0.0 && (w > 0.0 ==> a <= b)
    ensures Times(a, w) <= Times(b, w)
  {
  }

  /** The weight sequence with everything but entry k set to zero. */
  function Only(w: seq<real>, k: nat): (r: seq<real>)
    requires k < |w|
    ensures |r| == |w| && forall i :: 0 <= i < |r| ==> r[i] == if i == k then w[k] else 0.0
  {
    seq(|w|, i requires 0 <= i < |w| => if i == k then w[k] else 0.0)
  }

  lemma {:induction false} SumOnly(w: seq<real>, k: nat)
    requires k < |w|
    ensures Sum(Only(w, k)) == w[k]
  {
    var n := |w| - 1;
    if k == n {
      SumConstant(Only(w, k)[..n], 0.0);
    } else {
      SumOnly(w[..n], k);
      assert Only(w, k)[..n] == Only(w[..n], k);
    }
  }

  /** One entry is bounded by v and all others by hi: a bound on the weighted sum. */
  lemma {:induction false} SumAtMostBut(x: seq<real>, w: seq<real>, hi: real, k: nat, v: real)
    requires |x| == |w| && k < |x|
    requires forall i :: 0 <= i < |x| ==> w[i] >= 0.0 && (i != k ==> x[i] <= hi)
    requires x[k] <= v
    ensures Sum(Products(x, w)) <= Times(hi, Sum(w)) + Times(v - hi, w[k])
  {
    hide Times;
    var rest, spike := Scale(hi, w), Scale(v - hi, Only(w, k));
    var bound := seq(|x|, i requires 0 <= i < |x| => rest[i] + spike[i]);
    forall i | 0 <= i < |x|
      ensures Products(x, w)[i] <= bound[i]
    {
      ProductOrder(x[i], if i == k then v else hi, w[i]);
      SplitFactor(hi, v, w[k]);
      TimesZero(v - hi);
    }
    SumLessEqual(Products(x, w), bound);
    SumPlus(rest, spike, bound);
    SumScaled(hi, w);
    SumScaled(v - hi, Only(w, k));
    SumOnly(w, k);
  }

  lemma {:induction false} SumAtLeastBut(x: seq<real>, w: seq<real>, lo: real, k: nat, v: real)
    requires |x| == |w| && k < |x|
    requires forall i :: 0 <= i < |x| ==> w[i] >= 0.0 && (i != k ==> lo <= x[i])
    requires v <= x[k]
    ensures Times(lo, Sum(w)) + Times(v - lo, w[k]) <= Sum(Products(x, w))
  {
    hide Times;
    var rest, spike := Scale(lo, w), Scale(v - lo, Only(w, k));
    var bound := seq(|x|, i requires 0 <= i < |x| => rest[i] + spike[i]);
    forall i | 0 <= i < |x|
      ensures bound[i] <= Products(x, w)[i]
    {
      ProductOrder(if i == k then v else lo, x[i], w[i]);
      SplitFactor(lo, v, w[k]);
      TimesZero(v - lo);
    }
    SumLessEqual(bound, Products(x, w));
    SumPlus(rest, spike, bound);
    SumScaled(lo, w);
    SumScaled(v - lo, Only(w, k));
    SumOnly(w, k);
  }

  lemma SplitFactor(a: real, b: real, w: real)
    ensures Times(b, w) == Times(a, w) + Times(b - a, w)
  {
  }
}
