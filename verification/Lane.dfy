/** The lane scheduler: suites grouped by package, worker threads that claim groups and run them, and
    what every interleaving of those threads keeps. A suite is its position in the list to run. */
module Lane {
  import opened Sorting

  datatype Group<P> = Group(pkg: P, entries: seq<nat>)

  /** The suites to run, by package, and their grouping. */
  datatype Plan<P> = Plan(pkgs: seq<P>, groups: seq<Group<P>>)

  datatype Outcome = Green | Red | SpawnError

  /** What became of a ledger write: on disk, not attempted or without effect, or cut short. */
  datatype Write = Stored | Lost | Torn

  datatype Event =
    | Started(suite: nat)
    | Finished(suite: nat, outcome: Outcome)
    | Banked(suite: nat, write: Write)

  // ---- Grouping ----

  ghost predicate GroupOf<P>(pkgs: seq<P>, g: Group<P>, upTo: nat) {
    && (forall k :: 0 <= k < |g.entries| ==>
      g.entries[k] < upTo && g.entries[k] < |pkgs| && pkgs[g.entries[k]] == g.pkg)
    && (forall k, l :: 0 <= k < l < |g.entries| ==> g.entries[k] < g.entries[l])
  }

  ghost predicate DistinctPackages<P>(groups: seq<Group<P>>) {
    forall g, h :: 0 <= g < h < |groups| ==> groups[g].pkg != groups[h].pkg
  }

  ghost predicate Holds<P>(groups: seq<Group<P>>, s: nat) {
    exists g <- groups :: s in g.entries
  }

  /** Each of the first `upTo` suites sits in the group of its package, in list order. */
  ghost predicate Grouped<P>(pkgs: seq<P>, groups: seq<Group<P>>, upTo: nat) {
    && upTo <= |pkgs|
    && DistinctPackages(groups)
    && (forall g <- groups :: GroupOf(pkgs, g, upTo))
    && (forall s :: 0 <= s < upTo ==> Holds(groups, s))
  }

  /** One suite joins the group of its package, or opens one. */
  function AddSuite<P(==)>(groups: seq<Group<P>>, pkg: P, s: nat): seq<Group<P>> {
    if groups == [] then [Group(pkg, [s])]
    else if groups[0].pkg == pkg then [groups[0].(entries := groups[0].entries + [s])] + groups[1..]
    else [groups[0]] + AddSuite(groups[1..], pkg, s)
  }

  lemma {:induction false} AddSuiteGroups<P>(pkgs: seq<P>, groups: seq<Group<P>>, s: nat)
    requires s < |pkgs| && DistinctPackages(groups) && forall g <- groups :: GroupOf(pkgs, g, s)
    ensures var r := AddSuite(groups, pkgs[s], s);
      && DistinctPackages(r)
      && (forall g <- r :: GroupOf(pkgs, g, s + 1))
      && (forall g <- r :: g.pkg == pkgs[s] || exists h <- groups :: h.pkg == g.pkg)
      && (forall t :: Holds(r, t) <==> Holds(groups, t) || t == s)
  {
    var r := AddSuite(groups, pkgs[s], s);
    if groups == [] {
      assert r[0] in r;
    } else {
      var first, rest := groups[0], groups[1..];
      assert groups == [first] + rest;
      if first.pkg == pkgs[s] {
        var now := first.(entries := first.entries + [s]);
        assert r == [now] + rest;
        assert GroupOf(pkgs, first, s) && GroupOf(pkgs, now, s + 1);
        forall g <- rest ensures GroupOf(pkgs, g, s + 1) { assert GroupOf(pkgs, g, s); }
        forall t ensures Holds(r, t) <==> Holds(groups, t) || t == s {
          HoldsCons(now, rest, t);
          HoldsCons(first, rest, t);
        }
      } else {
        AddSuiteGroups(pkgs, rest, s);
        var tail := AddSuite(rest, pkgs[s], s);
        assert r == [first] + tail;
        assert GroupOf(pkgs, first, s) && GroupOf(pkgs, first, s + 1);
        forall t ensures Holds(r, t) <==> Holds(groups, t) || t == s {
          HoldsCons(first, tail, t);
          HoldsCons(first, rest, t);
        }
      }
    }
  }

  lemma HoldsCons<P>(g: Group<P>, rest: seq<Group<P>>, t: nat)
    ensures Holds([g] + rest, t) <==> t in g.entries || Holds(rest, t)
  {
    assert g in [g] + rest;
    assert forall h <- rest :: h in [g] + rest;
  }

  predicate Longer<P>(a: Group<P>, b: Group<P>) {
    |a.entries| >= |b.entries|
  }

  /** The longer group first, and of two equally long ones the one whose first suite is listed first. */
  predicate ComesFirst<P>(a: Group<P>, b: Group<P>) {
    |a.entries| > |b.entries| || (|a.entries| == |b.entries| > 0 && a.entries[0] < b.entries[0])
  }

  /** No group is empty, and they stand in the order of their first suites. */
  ghost predicate Opened<P>(groups: seq<Group<P>>, upTo: nat) {
    && (forall g :: 0 <= g < |groups| ==> groups[g].entries != [] && groups[g].entries[0] < upTo)
    && (forall g, h :: 0 <= g < h < |groups| ==> groups[g].entries[0] < groups[h].entries[0])
  }

  lemma {:induction false} AddSuiteOpens<P>(groups: seq<Group<P>>, pkg: P, s: nat)
    requires Opened(groups, s)
    ensures Opened(AddSuite(groups, pkg, s), s + 1)
    ensures groups != [] ==> AddSuite(groups, pkg, s)[0].entries[0] == groups[0].entries[0]
  {
    if groups != [] && groups[0].pkg != pkg {
      var rest := groups[1..];
      AddSuiteOpens(rest, pkg, s);
      var r := AddSuite(rest, pkg, s);
      assert groups[0].entries[0] < r[0].entries[0] by { if rest != [] { assert rest[0] == groups[1]; } }
    }
  }

  ghost predicate InTurn<P>(groups: seq<Group<P>>) {
    forall g, h :: 0 <= g < h < |groups| ==> ComesFirst(groups[g], groups[h])
  }

  lemma {:induction false} InsertIsStable<P>(x: Group<P>, s: seq<Group<P>>)
    requires InTurn(s) && x.entries != []
    requires forall i :: 0 <= i < |s| ==> s[i].entries != [] && x.entries[0] < s[i].entries[0]
    ensures InTurn(Insert<Group<P>>(Longer, x, s))
    ensures multiset(Insert<Group<P>>(Longer, x, s)) == multiset(s) + multiset{x}
  {
    InsertKeeps<Group<P>>(Longer, x, s);
    if s != [] && !Longer(x, s[0]) {
      InsertIsStable(x, s[1..]);
      var t := Insert<Group<P>>(Longer, x, s[1..]);
      forall j | 0 <= j < |t| ensures ComesFirst(s[0], t[j]) {
        assert t[j] in multiset(t);
        if t[j] != x {
          var k :| 0 <= k < |s[1..]| && s[1..][k] == t[j];
          assert s[k + 1] == t[j];
        }
      }
    }
  }

  lemma {:induction false} SortIsStable<P(!new)>(groups: seq<Group<P>>, upTo: nat)
    requires Opened(groups, upTo)
    ensures InTurn(Sort<Group<P>>(Longer, groups)) && forall g <- Sort<Group<P>>(Longer, groups) :: g.entries != []
  {
    var r := Sort<Group<P>>(Longer, groups);
    SortSorts<Group<P>>(Longer, groups);
    forall g <- r ensures g.entries != [] { assert g in multiset(groups); }
    if groups != [] {
      var rest := Sort<Group<P>>(Longer, groups[1..]);
      SortIsStable(groups[1..], upTo);
      SortSorts<Group<P>>(Longer, groups[1..]);
      forall i | 0 <= i < |rest| ensures rest[i].entries != [] && groups[0].entries[0] < rest[i].entries[0] {
        assert rest[i] in multiset(rest);
        var k :| 0 <= k < |groups[1..]| && groups[1..][k] == rest[i];
        assert groups[k + 1] == rest[i];
      }
      InsertIsStable(groups[0], rest);
    }
  }

  /** Group by package in list order, then put the longest groups first. */
  method MakePlan<P(==,!new)>(pkgs: seq<P>) returns (plan: Plan<P>)
    ensures plan.pkgs == pkgs && Grouped(pkgs, plan.groups, |pkgs|)
    ensures forall g <- plan.groups :: g.entries != []
    ensures forall g, h :: 0 <= g < h < |plan.groups| ==> ComesFirst(plan.groups[g], plan.groups[h])
  {
    var groups: seq<Group<P>> := [];
    for s := 0 to |pkgs|
      invariant Grouped(pkgs, groups, s) && Opened(groups, s)
    {
      AddSuiteGroups(pkgs, groups, s);
      AddSuiteOpens(groups, pkgs[s], s);
      groups := AddSuite(groups, pkgs[s], s);
    }
    SortSorts<Group<P>>(Longer, groups);
    SortKeepsGroups(pkgs, groups);
    SortIsStable(groups, |pkgs|);
    plan := Plan(pkgs, Sort<Group<P>>(Longer, groups));
  }

  lemma SortKeepsGroups<P(!new)>(pkgs: seq<P>, groups: seq<Group<P>>)
    requires Grouped(pkgs, groups, |pkgs|)
    ensures Grouped(pkgs, Sort<Group<P>>(Longer, groups), |pkgs|)
  {
    var r := Sort<Group<P>>(Longer, groups);
    SortSorts<Group<P>>(Longer, groups);
    forall g ensures g in r <==> g in groups { assert g in multiset(r) <==> g in multiset(groups); }
    SortKeepsDistinct(groups);
    forall s | 0 <= s < |pkgs| ensures Holds(r, s) {
      assert Holds(groups, s);
      var g :| g in groups && s in g.entries;
      assert g in r;
    }
  }

  lemma {:induction false} SortKeepsDistinct<P(!new)>(groups: seq<Group<P>>)
    requires DistinctPackages(groups)
    ensures DistinctPackages(Sort<Group<P>>(Longer, groups))
  {
    if groups != [] {
      var rest := Sort<Group<P>>(Longer, groups[1..]);
      SortKeepsDistinct(groups[1..]);
      SortSorts<Group<P>>(Longer, groups[1..]);
      forall g <- rest ensures g.pkg != groups[0].pkg {
        assert g in multiset(groups[1..]);
        var k :| 0 <= k < |groups[1..]| && groups[1..][k] == g;
        assert groups[k + 1] == g;
      }
      InsertKeepsDistinct(groups[0], rest);
    }
  }

  lemma {:induction false} InsertKeepsDistinct<P(!new)>(x: Group<P>, s: seq<Group<P>>)
    requires DistinctPackages(s) && forall g <- s :: g.pkg != x.pkg
    ensures DistinctPackages(Insert<Group<P>>(Longer, x, s))
    ensures forall g :: g in Insert<Group<P>>(Longer, x, s) <==> g == x || g in s
  {
    if s != [] && !Longer(x, s[0]) {
      InsertKeepsDistinct(x, s[1..]);
      var t := Insert<Group<P>>(Longer, x, s[1..]);
      forall g <- t ensures g.pkg != s[0].pkg {
        if g != x {
          var k :| 0 <= k < |s[1..]| && s[1..][k] == g;
          assert s[k + 1] == g;
        }
      }
      assert s == [s[0]] + s[1..];
    }
  }
}
