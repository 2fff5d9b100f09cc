/** Sums of multisets over a sequence. */
module Bags {

  function Sum<T, I>(s: seq<T>, f: T -> multiset<I>): multiset<I> {
    if s == [] then multiset{} else Sum(s[..|s| - 1], f) + f(s[|s| - 1])
  }

  lemma SumSnoc<T, I>(s: seq<T>, x: T, f: T -> multiset<I>)
    ensures Sum(s + [x], f) == Sum(s, f) + f(x)
  {
    assert (s + [x])[..|s|] == s;
  }

  lemma SumSnocEmpty<T, I>(s: seq<T>, x: T, f: T -> multiset<I>)
    requires f(x) == multiset{}
    ensures Sum(s + [x], f) == Sum(s, f)
  {
    SumSnoc(s, x, f);
  }

  /** Replacing one element exchanges its contribution. */
  lemma {:induction false} SumUpdate<T, I>(s: seq<T>, i: nat, x: T, f: T -> multiset<I>)
    requires i < |s|
    ensures Sum(s[i := x], f) + f(s[i]) == Sum(s, f) + f(x)
  {
    var front := s[..|s| - 1];
    if i == |s| - 1 {
      assert s[i := x][..|s| - 1] == front;
    } else {
      assert s[i := x][..|s| - 1] == front[i := x];
      SumUpdate(front, i, x, f);
      var a, b, l := Sum(front[i := x], f), Sum(front, f), f(s[|s| - 1]);
      assert a + f(s[i]) == b + f(x);
      assert (a + l) + f(s[i]) == (a + f(s[i])) + l == (b + f(x)) + l == (b + l) + f(x);
    }
  }

  lemma SumSame<T, I>(s: seq<T>, i: nat, x: T, f: T -> multiset<I>)
    requires i < |s| && f(x) == f(s[i])
    ensures Sum(s[i := x], f) == Sum(s, f)
  {
    SumUpdate(s, i, x, f);
    CancelRight(Sum(s[i := x], f), Sum(s, f), f(x));
  }

  lemma CancelRight<I>(a: multiset<I>, b: multiset<I>, c: multiset<I>)
    requires a + c == b + c
    ensures a == b
  {
    assert a == (a + c) - c && b == (b + c) - c;
  }

  /** One element's contribution leaves the sum. */
  lemma SumRelease<T, I>(s: seq<T>, i: nat, x: T, f: T -> multiset<I>)
    requires i < |s| && f(x) == multiset{}
    ensures Sum(s, f) == Sum(s[i := x], f) + f(s[i])
  {
    SumUpdate(s, i, x, f);
  }

  /** One element's contribution joins the sum. */
  lemma SumGain<T, I>(s: seq<T>, i: nat, x: T, f: T -> multiset<I>)
    requires i < |s| && f(s[i]) == multiset{}
    ensures Sum(s[i := x], f) == Sum(s, f) + f(x)
  {
    SumUpdate(s, i, x, f);
  }

  /** `total` is the sum of what is done and two places where things are still held. */
  ghost predicate Adds<I>(total: multiset<I>, done: seq<I>, a: multiset<I>, b: multiset<I>) {
    total == multiset(done) + a + b
  }

  lemma SplitGain<I>(total: multiset<I>, done: seq<I>, a: multiset<I>, b: multiset<I>, x: multiset<I>)
    requires Adds(total, done, a, b)
    ensures Adds(total + x, done, a + x, b) && Adds(total + x, done, a, b + x)
  {}

  lemma SplitDone<I>(total: multiset<I>, done: seq<I>, a: multiset<I>, b: multiset<I>, x: I)
    ensures Adds(total, done, a + multiset{x}, b) ==> Adds(total, done + [x], a, b)
    ensures Adds(total, done, a, b + multiset{x}) ==> Adds(total, done + [x], a, b)
  {
    assert multiset(done + [x]) == multiset(done) + multiset{x};
  }
}
