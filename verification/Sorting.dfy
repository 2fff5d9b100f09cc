/** Sorting by insertion, standing for the library's stable `sort`, and ordered sets. */
module Sorting {
  import opened Text

  function Insert<T>(leq: (T, T) -> bool, x: T, s: seq<T>): seq<T> {
    if s == [] || leq(x, s[0]) then [x] + s else [s[0]] + Insert(leq, x, s[1..])
  }

  function Sort<T>(leq: (T, T) -> bool, s: seq<T>): seq<T> {
    if s == [] then [] else Insert(leq, s[0], Sort(leq, s[1..]))
  }

  ghost predicate Ordered<T>(leq: (T, T) -> bool, s: seq<T>) {
    forall i, j :: 0 <= i < j < |s| ==> leq(s[i], s[j])
  }

  ghost predicate TotalPreorder<T(!new)>(leq: (T, T) -> bool) {
    && (forall x, y :: leq(x, y) || leq(y, x))
    && (forall x, y, z :: leq(x, y) && leq(y, z) ==> leq(x, z))
  }

  lemma {:induction false} InsertKeeps<T>(leq: (T, T) -> bool, x: T, s: seq<T>)
    ensures multiset(Insert(leq, x, s)) == multiset(s) + multiset{x}
  {
    if s != [] && !leq(x, s[0]) {
      InsertKeeps(leq, x, s[1..]);
      assert s == [s[0]] + s[1..];
    }
  }

  lemma {:induction false} InsertSorts<T(!new)>(leq: (T, T) -> bool, x: T, s: seq<T>)
    requires TotalPreorder(leq) && Ordered(leq, s)
    ensures Ordered(leq, Insert(leq, x, s))
  {
    if s != [] && !leq(x, s[0]) {
      var t := Insert(leq, x, s[1..]);
      InsertSorts(leq, x, s[1..]);
      InsertKeeps(leq, x, s[1..]);
      forall j | 0 <= j < |t| ensures leq(s[0], t[j]) {
        assert t[j] in multiset(t);
        assert t[j] == x || t[j] in s[1..];
      }
    }
  }

  lemma {:induction false} SortSorts<T(!new)>(leq: (T, T) -> bool, s: seq<T>)
    requires TotalPreorder(leq)
    ensures Ordered(leq, Sort(leq, s)) && multiset(Sort(leq, s)) == multiset(s)
  {
    if s != [] {
      SortSorts(leq, s[1..]);
      InsertSorts(leq, s[0], Sort(leq, s[1..]));
      InsertKeeps(leq, s[0], Sort(leq, s[1..]));
      assert s == [s[0]] + s[1..];
    }
  }

  lemma {:induction false} InsertLast<T>(leq: (T, T) -> bool, x: T, s: seq<T>)
    requires forall i :: 0 <= i < |s| ==> !leq(x, s[i])
    ensures Insert(leq, x, s) == s + [x]
  {
    if s != [] {
      InsertLast(leq, x, s[1..]);
      assert [s[0]] + (s[1..] + [x]) == s + [x];
    }
  }

  /** Nothing of `a` belongs before anything of `b`. */
  ghost predicate Above<T>(leq: (T, T) -> bool, a: seq<T>, b: seq<T>) {
    forall i, j :: 0 <= i < |a| && 0 <= j < |b| ==> !leq(a[i], b[j])
  }

  /** Putting at most one element in front that belongs at the end. */
  lemma SortAfter<T>(leq: (T, T) -> bool, f: seq<T>, rest: seq<T>, sorted: seq<T>)
    requires |f| <= 1 && Sort(leq, rest) == sorted
    requires Above(leq, f, sorted)
    ensures Sort(leq, f + rest) == sorted + f
  {
    if f == [] {
      assert f + rest == rest;
    } else {
      assert (f + rest)[1..] == rest && f == [f[0]];
      InsertLast(leq, f[0], sorted);
    }
  }

  lemma AboveSum<T>(leq: (T, T) -> bool, a: seq<T>, b: seq<T>, c: seq<T>)
    requires Above(leq, a, b) && Above(leq, a, c)
    ensures Above(leq, a, b + c)
  {}

  lemma SortTwo<T>(leq: (T, T) -> bool, a: seq<T>, b: seq<T>)
    requires |a| <= 1 && |b| <= 1 && Above(leq, a, b)
    ensures Sort(leq, a + b) == b + a
  {
    assert Sort(leq, b) == b by { if b != [] { assert b[1..] == []; } }
    SortAfter(leq, a, b, b);
  }

  /** Three lists of at most one element each, listed last first. */
  lemma SortThree<T>(leq: (T, T) -> bool, a: seq<T>, b: seq<T>, c: seq<T>)
    requires |a| <= 1 && |b| <= 1 && |c| <= 1 && Above(leq, a, b) && Above(leq, a, c) && Above(leq, b, c)
    ensures Sort(leq, a + b + c) == c + b + a
  {
    SortTwo(leq, b, c);
    AboveSum(leq, a, c, b);
    SortAfter(leq, a, b + c, c + b);
    assert a + (b + c) == a + b + c;
  }

  // ---- Ordered sets ----

  ghost predicate TotalOrder<T(!new)>(leq: (T, T) -> bool) {
    TotalPreorder(leq) && forall x, y :: leq(x, y) && leq(y, x) ==> x == y
  }

  lemma HeadIsLeast<T(!new)>(leq: (T, T) -> bool, s: seq<T>, x: T)
    requires TotalOrder(leq) && Ordered(leq, s) && x in s
    ensures leq(s[0], x)
  {
    assert leq(x, x);
  }

  lemma TailBag<T>(s: seq<T>)
    requires s != []
    ensures multiset(s[1..]) == multiset(s) - multiset{s[0]}
  {
    assert s == [s[0]] + s[1..];
  }

  /** There is one way to put elements in order. */
  lemma {:induction false} OrderIsUnique<T(!new)>(leq: (T, T) -> bool, s: seq<T>, t: seq<T>)
    requires TotalOrder(leq) && Ordered(leq, s) && Ordered(leq, t) && multiset(s) == multiset(t)
    ensures s == t
  {
    assert |s| == |multiset(s)| == |multiset(t)| == |t|;
    if s != [] {
      assert s[0] in multiset(t) && t[0] in multiset(s);
      HeadIsLeast(leq, s, t[0]);
      HeadIsLeast(leq, t, s[0]);
      TailBag(s);
      TailBag(t);
      OrderIsUnique(leq, s[1..], t[1..]);
      assert s == [s[0]] + s[1..] && t == [t[0]] + t[1..];
    }
  }

  ghost predicate IsLeast<T(!new)>(leq: (T, T) -> bool, s: set<T>, m: T) {
    m in s && forall x :: x in s ==> leq(m, x)
  }

  lemma LeastExists<T(!new)>(leq: (T, T) -> bool, s: set<T>)
    requires TotalOrder(leq) && s != {}
    ensures exists m :: IsLeast(leq, s, m)
  {
    var y :| y in s;
    var rest := s - {y};
    if rest == {} {
      assert s == {y};
      assert IsLeast(leq, s, y);
    } else {
      LeastExists(leq, rest);
      var m :| IsLeast(leq, rest, m);
      assert IsLeast(leq, s, if leq(m, y) then m else y);
    }
  }

  ghost function Least<T(!new)>(leq: (T, T) -> bool, s: set<T>): (m: T)
    requires TotalOrder(leq) && s != {}
    ensures IsLeast(leq, s, m)
  {
    LeastExists(leq, s);
    var m :| IsLeast(leq, s, m);
    m
  }

  /** The elements in ascending order, as an ordered set iterates. */
  ghost function Ascending<T(!new)>(leq: (T, T) -> bool, s: set<T>): (r: seq<T>)
    requires TotalOrder(leq)
    ensures (forall x :: x in r <==> x in s) && |r| == |s| && Ordered(leq, r)
    ensures forall i, j :: 0 <= i < j < |r| ==> r[i] != r[j]
  {
    if s == {} then [] else
      var m := Least(leq, s);
      [m] + Ascending(leq, s - {m})
  }

  lemma AscendingFrom<T(!new)>(leq: (T, T) -> bool, s: set<T>, m: T)
    requires TotalOrder(leq) && IsLeast(leq, s, m)
    ensures Ascending(leq, s) == [m] + Ascending(leq, s - {m})
  {
    assert m == Least(leq, s);
  }

  lemma Shifted<T>(r: seq<T>, m: T, rest: seq<T>)
    ensures r + ([m] + rest) == (r + [m]) + rest
  {}

  /** Take out the least element until none is left. */
  method Iterate<T(==,!new)>(leq: (T, T) -> bool, s: set<T>) returns (r: seq<T>)
    requires TotalOrder(leq)
    ensures r == Ascending(leq, s)
  {
    r := [];
    var todo := s;
    ghost var rest := Ascending(leq, s);
    assert [] + rest == rest;
    while todo != {}
      invariant rest == Ascending(leq, todo) && r + rest == Ascending(leq, s)
    {
      var m := Minimum(leq, todo);
      AscendingFrom(leq, todo, m);
      Shifted(r, m, Ascending(leq, todo - {m}));
      r, todo, rest := r + [m], todo - {m}, Ascending(leq, todo - {m});
    }
    assert rest == [] && r + [] == r;
  }

  method Minimum<T(==,!new)>(leq: (T, T) -> bool, s: set<T>) returns (m: T)
    requires TotalOrder(leq) && s != {}
    ensures IsLeast(leq, s, m)
  {
    m :| m in s;
    var todo := s - {m};
    while todo != {}
      invariant m in s && todo <= s && forall x :: x in s && x !in todo ==> leq(m, x)
    {
      var x :| x in todo;
      if !leq(m, x) { m := x; }
      todo := todo - {x};
    }
  }

  lemma LeqIsOrder()
    ensures TotalOrder(Leq)
  {
    forall x, y ensures Leq(x, y) || Leq(y, x) { LeqTotal(x, y); }
    forall x, y, z | Leq(x, y) && Leq(y, z) ensures Leq(x, z) { LeqTransitive(x, y, z); }
    forall x, y | Leq(x, y) && Leq(y, x) ensures x == y { LeqAntisymmetric(x, y); }
  }

  /** Names as an ordered set iterates them. */
  ghost function InOrder(s: set<string>): (r: seq<string>)
    ensures forall x :: x in r <==> x in s
  {
    LeqIsOrder();
    Ascending(Leq, s)
  }

  method IterateNames(s: set<string>) returns (r: seq<string>)
    ensures r == InOrder(s)
  {
    LeqIsOrder();
    r := Iterate(Leq, s);
  }

  predicate AtMost(a: nat, b: nat) {
    a <= b
  }

  /** Numbers in ascending order, each once. */
  method IterateNumbers(s: set<nat>) returns (r: seq<nat>)
    ensures (forall x :: x in r <==> x in s) && |r| == |s|
    ensures forall i, j :: 0 <= i < j < |r| ==> r[i] < r[j]
  {
    r := Iterate(AtMost, s);
    assert forall i, j :: 0 <= i < j < |r| ==> AtMost(r[i], r[j]) && r[i] != r[j];
  }
}
