/** Path-sorted listings and the two binary searches that cut a directory out of one. */
module PathRange {
  import opened Text
  import opened Flatten

  /** A path and the content id listed for it. */
  datatype Entry = Entry(path: string, id: string)

  ghost predicate PathSorted(es: seq<Entry>) {
    forall i, j :: 0 <= i < j < |es| ==> Leq(es[i].path, es[j].path)
  }

  function Inside(prefix: string): Entry -> bool {
    (e: Entry) => StartsWith(e.path, prefix)
  }

  /** The entries whose path starts with `prefix`, in order. */
  function Under(es: seq<Entry>, prefix: string): (r: seq<Entry>)
    ensures forall e: Entry :: e in r <==> e in es && StartsWith(e.path, prefix)
  {
    Filter(es, Inside(prefix))
  }

  /** The number of leading elements that satisfy a predicate which never recovers once it fails. */
  method PartitionPoint<T>(s: seq<T>, p: T -> bool) returns (k: nat)
    requires forall i, j :: 0 <= i < j < |s| && p(s[j]) ==> p(s[i])
    ensures k <= |s|
    ensures forall i :: 0 <= i < |s| ==> (p(s[i]) <==> i < k)
  {
    k := 0;
    var hi := |s|;
    while k < hi
      invariant k <= hi <= |s|
      invariant forall i :: 0 <= i < k ==> p(s[i])
      invariant forall i :: hi <= i < |s| ==> !p(s[i])
    {
      var mid := (k + hi) / 2;
      if p(s[mid]) {
        k := mid + 1;
      } else {
        hi := mid;
      }
    }
  }

  /** On a sorted listing, the two searches find exactly the entries under the prefix. */
  method RangeOf(sorted: seq<Entry>, prefix: string) returns (r: seq<Entry>)
    requires PathSorted(sorted)
    ensures r == Under(sorted, prefix)
  {
    forall i, j | 0 <= i < j < |sorted| && Less(sorted[j].path, prefix) ensures Less(sorted[i].path, prefix) {
      LessDownward(sorted[i].path, sorted[j].path, prefix);
    }
    var start := PartitionPoint(sorted, (e: Entry) => Less(e.path, prefix));
    var rest := sorted[start..];
    assert PathSorted(rest);
    assert forall i :: 0 <= i < |rest| ==> !Less(rest[i].path, prefix);
    forall i, j | 0 <= i < j < |rest| && StartsWith(rest[j].path, prefix) ensures StartsWith(rest[i].path, prefix) {
      LeqTotal(prefix, rest[i].path);
      ExtensionsAreContiguous(prefix, rest[i].path, rest[j].path);
    }
    var count := PartitionPoint(rest, (e: Entry) => StartsWith(e.path, prefix));
    forall i | 0 <= i < start ensures !StartsWith(sorted[i].path, prefix) { NotBelowExtension(sorted[i].path, prefix); }
    FilterDrop(sorted, Inside(prefix), start);
    FilterTake(rest, Inside(prefix), count);
    r := rest[..count];
  }

  lemma LessDownward(a: string, b: string, prefix: string)
    requires Leq(a, b) && Less(b, prefix)
    ensures Less(a, prefix)
  {
    LeqTransitive(a, b, prefix);
    if a == prefix { LeqAntisymmetric(b, prefix); }
  }

  lemma NotBelowExtension(a: string, prefix: string)
    requires Less(a, prefix)
    ensures !StartsWith(a, prefix)
  {
    if StartsWith(a, prefix) {
      PrefixIsLeq(prefix, a);
      LeqAntisymmetric(a, prefix);
    }
  }

  /** Listings that agree on the paths under a prefix agree on what is under it. */
  lemma {:induction false} UnderCongruent(es: seq<Entry>, fs: seq<Entry>, prefix: string)
    requires PathSorted(es) && PathSorted(fs)
    requires NoRepeats(es) && NoRepeats(fs)
    requires forall e: Entry :: StartsWith(e.path, prefix) ==> (e in es <==> e in fs)
    ensures Under(es, prefix) == Under(fs, prefix)
  {
    if es != [] && !StartsWith(es[0].path, prefix) {
      TailLacks(es);
      UnderCongruent(es[1..], fs, prefix);
    } else if fs != [] && !StartsWith(fs[0].path, prefix) {
      TailLacks(fs);
      UnderCongruent(es, fs[1..], prefix);
    } else if es != [] && fs != [] {
      var a, b := es[0], fs[0];
      assert a in fs && b in es;
      HeadIsFirst(es, b);
      HeadIsFirst(fs, a);
      LeqAntisymmetric(a.path, b.path);
      assert a == b;
      TailLacks(es);
      TailLacks(fs);
      UnderCongruent(es[1..], fs[1..], prefix);
    }
  }

  /** A listing names each path once. */
  ghost predicate NoRepeats(es: seq<Entry>) {
    forall i, j :: 0 <= i < j < |es| ==> es[i].path != es[j].path
  }

  lemma TailLacks(es: seq<Entry>)
    requires es != [] && NoRepeats(es)
    ensures NoRepeats(es[1..]) && forall e: Entry :: e in es[1..] <==> e in es && e != es[0]
  {
    assert es == [es[0]] + es[1..];
  }

  lemma HeadIsFirst(es: seq<Entry>, e: Entry)
    requires PathSorted(es) && e in es
    ensures Leq(es[0].path, e.path)
  {
    LeqReflexive(e.path);
  }
}
