/** Concatenating what each element of a sequence contributes, and filtering. */
module Flatten {

  function Flat<T, F>(s: seq<T>, f: T -> seq<F>): seq<F> {
    if s == [] then [] else f(s[0]) + Flat(s[1..], f)
  }

  lemma {:induction false} FlatSnoc<T, F>(s: seq<T>, x: T, f: T -> seq<F>)
    ensures Flat(s + [x], f) == Flat(s, f) + f(x)
  {
    if s == [] {
      assert Flat([x], f) == f(x) + [];
    } else {
      assert (s + [x])[1..] == s[1..] + [x];
      FlatSnoc(s[1..], x, f);
    }
  }

  /** Append what each element contributes, in turn. */
  method Update<T, F>(h: seq<F>, s: seq<T>, f: T -> seq<F>) returns (h': seq<F>)
    ensures h' == h + Flat(s, f)
  {
    h' := h;
    for i := 0 to |s|
      invariant h' == h + Flat(s[..i], f)
    {
      FlatSnoc(s[..i], s[i], f);
      assert s[..i + 1] == s[..i] + [s[i]];
      h' := h' + f(s[i]);
    }
    assert s[..|s|] == s;
  }

  function Filter<T(!new)>(s: seq<T>, p: T -> bool): (r: seq<T>)
    ensures forall x :: x in r <==> x in s && p(x)
  {
    if s == [] then [] else (if p(s[0]) then [s[0]] else []) + Filter(s[1..], p)
  }

  lemma {:induction false} FilterSnoc<T(!new)>(s: seq<T>, last: T, p: T -> bool)
    ensures Filter(s + [last], p) == Filter(s, p) + if p(last) then [last] else []
  {
    if s != [] {
      assert (s + [last])[1..] == s[1..] + [last];
      FilterSnoc(s[1..], last, p);
    }
  }

  /** `r` is the elements of `s` at the positions `at`: in order, exactly those that are kept. */
  ghost predicate SiftedAt<T(!new)>(s: seq<T>, keep: T -> bool, at: seq<nat>, r: seq<T>) {
    && |r| == |at| && (forall k, l :: 0 <= k < l < |at| ==> at[k] < at[l])
    && (forall k :: 0 <= k < |at| ==> at[k] < |s| && keep(s[at[k]]) && r[k] == s[at[k]])
    && (forall i :: 0 <= i < |s| && keep(s[i]) ==> i in at)
  }

  /** `r` is what is kept of `s`, in order, each element as often as it is there. */
  ghost predicate Sifted<T(!new)>(s: seq<T>, keep: T -> bool, r: seq<T>) {
    exists at :: SiftedAt(s, keep, at, r)
  }

  lemma SiftedAlike<T(!new)>(s: seq<T>, keep: T -> bool, keep': T -> bool, r: seq<T>)
    requires Sifted(s, keep, r) && forall x <- s :: keep(x) == keep'(x)
    ensures Sifted(s, keep', r)
  {
    var at :| SiftedAt(s, keep, at, r);
    assert SiftedAt(s, keep', at, r);
  }

  lemma SiftedSnoc<T(!new)>(s: seq<T>, x: T, keep: T -> bool, at: seq<nat>, r: seq<T>)
    requires SiftedAt(s, keep, at, r)
    ensures keep(x) ==> SiftedAt(s + [x], keep, at + [|s|], r + [x])
    ensures !keep(x) ==> SiftedAt(s + [x], keep, at, r)
  {
    if keep(x) {
      var all, now := s + [x], at + [|s|];
      forall i | 0 <= i < |all| && keep(all[i]) ensures i in now {
        if i < |s| { assert i in at; } else { assert now[|at|] == i; }
      }
    }
  }

  lemma {:induction false} FilterIsSifted<T(!new)>(s: seq<T>, p: T -> bool)
    ensures Sifted(s, p, Filter(s, p))
  {
    if s == [] {
      assert SiftedAt(s, p, [], Filter(s, p));
    } else {
      var front, x := s[..|s| - 1], s[|s| - 1];
      assert front + [x] == s;
      FilterIsSifted(front, p);
      var at :| SiftedAt(front, p, at, Filter(front, p));
      SiftedSnoc(front, x, p, at, Filter(front, p));
      FilterSnoc(front, x, p);
      assert Filter(front, p) + [] == Filter(front, p);
    }
  }

  /** Leading elements that are all dropped. */
  lemma {:induction false} FilterDrop<T(!new)>(s: seq<T>, p: T -> bool, k: nat)
    requires k <= |s| && forall i :: 0 <= i < k ==> !p(s[i])
    ensures Filter(s, p) == Filter(s[k..], p)
  {
    if k > 0 {
      FilterDrop(s[1..], p, k - 1);
      assert s[1..][k - 1..] == s[k..];
    }
  }

  /** Leading elements that are all kept, and nothing after them. */
  lemma {:induction false} FilterTake<T(!new)>(s: seq<T>, p: T -> bool, k: nat)
    requires k <= |s| && forall i :: 0 <= i < |s| ==> (p(s[i]) <==> i < k)
    ensures Filter(s, p) == s[..k]
  {
    if k == 0 {
      FilterDrop(s, p, |s|);
    } else {
      FilterTake(s[1..], p, k - 1);
      assert [s[0]] + s[1..][..k - 1] == s[..k];
    }
  }

  /** The last `n` elements, or all of them when there are fewer. */
  function LastOf<T>(s: seq<T>, n: nat): seq<T> {
    if |s| <= n then s else s[|s| - n..]
  }
}
