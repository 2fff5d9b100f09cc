/** Bounded capture of a child's output: the first bytes, a rolling window of the last ones, and the
    truncation notice. Bytes are left undecoded. */
module HeadTail {
  import opened Text
  import opened Flatten

  function Min(a: nat, b: nat): nat {
    if a <= b then a else b
  }

  class Accumulator<B> {
    const headCap: nat
    const tailCap: nat
    var head: seq<B>
    var tail: seq<B>
    var total: nat

    /** This is what is kept of the stream seen so far. */
    ghost predicate Keeps(seen: seq<B>)
      reads this
    {
      && head == seen[..Min(headCap, |seen|)]
      && tail == LastOf(seen[Min(headCap, |seen|)..], tailCap)
      && total == |seen|
    }

    constructor (headCap: nat, tailCap: nat)
      ensures Keeps([]) && this.headCap == headCap && this.tailCap == tailCap
    {
      this.headCap, this.tailCap := headCap, tailCap;
      head, tail, total := [], [], 0;
    }

    method Push(data: seq<B>, ghost seen: seq<B>)
      requires Keeps(seen)
      modifies this
      ensures Keeps(seen + data)
    {
      ghost var now := seen + data;
      total := total + |data|;
      var rest := data;
      if |head| < headCap {
        var take := Min(headCap - |head|, |rest|);
        head := head + rest[..take];
        rest := rest[take..];
      }
      ghost var cut := Min(headCap, |now|);
      assert head == now[..cut];
      assert now[cut..] == seen[Min(headCap, |seen|)..] + rest;
      if rest == [] || tailCap == 0 {
        return;
      }
      tail := tail + rest;
      Trim();
      LastOfGrows(seen[Min(headCap, |seen|)..], rest, tailCap);
    }

    /** Drop from the front until the window fits. */
    method Trim()
      modifies this`tail
      ensures tail == LastOf(old(tail), tailCap)
    {
      ghost var full := tail;
      while |tail| > tailCap
        invariant |tail| <= |full| && tail == full[|full| - |tail|..]
        invariant |tail| == |full| || |tail| >= tailCap
      {
        tail := tail[1..];
      }
    }
  }

  /** The window of a longer stream can be cut from the window of the shorter one. */
  lemma LastOfGrows<B>(s: seq<B>, more: seq<B>, n: nat)
    ensures LastOf(LastOf(s, n) + more, n) == LastOf(s + more, n)
  {}

  function Concat<B>(chunks: seq<seq<B>>): seq<B> {
    if chunks == [] then [] else Concat(chunks[..|chunks| - 1]) + chunks[|chunks| - 1]
  }

  /** Read the chunks a pipe delivers until it ends. However the stream is cut into chunks, the result is
      its first bytes, the last bytes of the rest, and its length. */
  method Drain<B>(chunks: seq<seq<B>>, headCap: nat, tailCap: nat) returns (head: seq<B>, tail: seq<B>, total: nat)
    ensures var stream := Concat(chunks);
      && head == stream[..Min(headCap, |stream|)]
      && tail == LastOf(stream[Min(headCap, |stream|)..], tailCap)
      && total == |stream|
  {
    var acc := new Accumulator(headCap, tailCap);
    for i := 0 to |chunks|
      invariant acc.Keeps(Concat(chunks[..i])) && acc.headCap == headCap && acc.tailCap == tailCap
      invariant fresh(acc)
    {
      assert chunks[..i + 1][..i] == chunks[..i];
      acc.Push(chunks[i], Concat(chunks[..i]));
    }
    assert chunks[..|chunks|] == chunks;
    head, tail, total := acc.head, acc.tail, acc.total;
  }

  function HeadCap(cap: nat): nat {
    cap * 2 / 5
  }

  /** Captured output: everything kept, or both ends around a notice with its two counts. */
  datatype Captured<B> = Whole(bytes: seq<B>) | Cut(head: seq<B>, omitted: string, total: string, tail: seq<B>)

  method Assemble<B>(head: seq<B>, tail: seq<B>, total: nat, cap: nat) returns (r: Captured<B>)
    requires |head| + |tail| <= total
    ensures r == if total > cap && tail != []
      then Cut(head, Commas(Digits(total - |head| - |tail|)), Commas(Digits(total)), tail)
                 else Whole(head + tail)
  {
    if total > cap && tail != [] {
      var past := if |head| <= total then total - |head| else 0;
      var omitted := Commafy(if |tail| <= past then past - |tail| else 0);
      var all := Commafy(total);
      r := Cut(head, omitted, all, tail);
    } else {
      r := Whole(head + tail);
    }
  }

  lemma HeadCapFits(cap: nat)
    ensures HeadCap(cap) <= cap && (cap > 0 ==> HeadCap(cap) < cap)
    ensures 5 * HeadCap(cap) <= 2 * cap < 5 * (HeadCap(cap) + 1)
  {}

  /** What a capture keeps of a stream: all of it, or exactly `cap` elements from its two ends. */
  lemma BothEnds<B>(stream: seq<B>, cap: nat, h: nat, head: seq<B>, tail: seq<B>)
    requires h <= cap && head == stream[..Min(h, |stream|)] && tail == LastOf(stream[Min(h, |stream|)..], cap - h)
    ensures |stream| <= cap ==> head + tail == stream && |head| + |tail| == |stream|
    ensures |stream| > cap ==>
      head == stream[..h] && tail == stream[|stream| - (cap - h)..] && |head| == h && |tail| == cap - h
  {}

  /** Unchanged up to the cap; over a nonzero cap, `cap` elements from both ends and a notice that counts
      exactly the others; and nothing at all, without notice, over a cap of 0. */
  ghost function Clipped<B>(stream: seq<B>, cap: nat, h: nat): Captured<B>
    requires h <= cap
  {
    if |stream| <= cap then Whole(stream)
    else if cap == 0 then Whole([])
    else Cut(stream[..h], Commas(Digits(|stream| - cap)), Commas(Digits(|stream|)), stream[|stream| - (cap - h)..])
  }

  method Capture<B>(chunks: seq<seq<B>>, cap: nat) returns (r: Captured<B>)
    ensures HeadCap(cap) <= cap && r == Clipped(Concat(chunks), cap, HeadCap(cap))
    ensures r.Cut? <==> 0 < cap < |Concat(chunks)|
    ensures r.Cut? ==> |r.head| + |r.tail| == cap && 5 * |r.head| <= 2 * cap < 5 * (|r.head| + 1)
  {
    HeadCapFits(cap);
    var h := HeadCap(cap);
    var head, tail, total := Drain(chunks, h, cap - h);
    BothEnds(Concat(chunks), cap, h, head, tail);
    r := Assemble(head, tail, total, cap);
  }

  // ---- Thousands separators ----

  /** A comma before every third digit from the right. */
  function Commas(digits: string): string {
    if |digits| <= 3 then digits else Commas(digits[..|digits| - 3]) + "," + digits[|digits| - 3..]
  }

  /** What the loop has written after `i` digits. */
  ghost function Written(digits: string, i: nat): string
    requires i <= |digits|
  {
    if i == 0 then ""
    else Written(digits, i - 1) + (if i > 1 && (|digits| - (i - 1)) % 3 == 0 then "," else "") + [digits[i - 1]]
  }

  method Commafy(n: nat) returns (out: string)
    ensures out == Commas(Digits(n)) && EveryFourth(out)
  {
    var digits := Digits(n);
    out := "";
    for i := 0 to |digits|
      invariant out == Written(digits, i)
    {
      if i > 0 && (|digits| - i) % 3 == 0 {
        out := out + ",";
      }
      out := out + [digits[i]];
    }
    WrittenIsGrouped(digits);
    CommasAreEveryFourth(digits);
  }

  /** Counted from the right, every fourth character is a comma and no other. */
  ghost predicate EveryFourth(s: string) {
    forall i :: 0 <= i < |s| ==> (s[i] == ',' <==> (|s| - i) % 4 == 0)
  }

  lemma ThreeMore(front: string, comma: string, back: string)
    requires EveryFourth(front) && |comma| == 1 && comma[0] == ',' && |back| == 3 && AllDigits(back)
    ensures EveryFourth(front + comma + back)
  {
    var s := front + comma + back;
    forall i | 0 <= i < |s| ensures s[i] == ',' <==> (|s| - i) % 4 == 0 {
      if i < |front| { assert s[i] == front[i] && (|s| - i) % 4 == (|front| - i) % 4; }
    }
  }

  lemma {:induction false} CommasAreEveryFourth(digits: string)
    requires AllDigits(digits)
    ensures EveryFourth(Commas(digits))
  {
    if |digits| > 3 {
      var front, back := digits[..|digits| - 3], digits[|digits| - 3..];
      assert AllDigits(front) && AllDigits(back);
      CommasAreEveryFourth(front);
      ThreeMore(Commas(front), ",", back);
    }
  }

  lemma {:induction false} WrittenPrefix(digits: string, i: nat)
    requires i + 3 <= |digits|
    ensures Written(digits, i) == Written(digits[..|digits| - 3], i)
  {
    if i > 0 {
      WrittenPrefix(digits, i - 1);
      var n := |digits| - (i - 1);
      assert (n - 3) % 3 == n % 3;
    }
  }

  lemma Regroup<T>(s: seq<T>, comma: seq<T>, a: T, b: T, c: T)
    ensures s + comma + [a] + [] + [b] + [] + [c] == s + comma + [a, b, c]
  {}

  lemma WrittenStep(digits: string, i: nat, sep: string)
    requires i < |digits| && sep == if i > 0 && (|digits| - i) % 3 == 0 then "," else ""
    ensures Written(digits, i + 1) == Written(digits, i) + sep + [digits[i]]
  {}

  /** The last three digits are written behind a comma. */
  lemma WrittenThree(digits: string, n: nat, start: string)
    requires n == |digits| > 3 && start == Written(digits, n - 3)
    ensures Written(digits, n) == start + "," + [digits[n - 3], digits[n - 2], digits[n - 1]]
  {
    WrittenStep(digits, n - 3, ",");
    WrittenStep(digits, n - 2, "");
    WrittenStep(digits, n - 1, "");
    Regroup(start, ",", digits[n - 3], digits[n - 2], digits[n - 1]);
  }

  lemma LastThree<T>(s: seq<T>, n: nat)
    requires n == |s| >= 3
    ensures s[n - 3..] == [s[n - 3], s[n - 2], s[n - 1]]
  {}

  lemma {:induction false} WrittenIsGrouped(digits: string)
    ensures Written(digits, |digits|) == Commas(digits)
  {
    var n := |digits|;
    if n <= 3 {
      ShortIsPlain(digits, n);
      assert digits[..n] == digits;
    } else {
      WrittenThree(digits, n, Written(digits, n - 3));
      LastThree(digits, n);
      WrittenPrefix(digits, n - 3);
      WrittenIsGrouped(digits[..n - 3]);
    }
  }

  lemma {:induction false} ShortIsPlain(digits: string, i: nat)
    requires i <= |digits| <= 3
    ensures Written(digits, i) == digits[..i]
  {
    if i > 0 {
      ShortIsPlain(digits, i - 1);
      assert digits[..i] == digits[..i - 1] + [digits[i - 1]];
    }
  }

  function Uncomma(s: string): string {
    if s == "" then "" else (if s[0] == ',' then "" else [s[0]]) + Uncomma(s[1..])
  }

  lemma {:induction false} UncommaConcat(a: string, b: string)
    ensures Uncomma(a + b) == Uncomma(a) + Uncomma(b)
  {
    if a == "" {
      assert a + b == b;
    } else {
      assert (a + b)[1..] == a[1..] + b;
      UncommaConcat(a[1..], b);
    }
  }

  lemma {:induction false} UncommaDigits(s: string)
    requires AllDigits(s)
    ensures Uncomma(s) == s
  {
    if s != "" {
      UncommaDigits(s[1..]);
      assert s == [s[0]] + s[1..];
    }
  }

  lemma UncommaJoin(a: string, comma: string, b: string)
    requires |comma| == 1 && comma[0] == ','
    ensures Uncomma(a + comma + b) == Uncomma(a) + Uncomma(b)
  {
    UncommaConcat(a + comma, b);
    UncommaConcat(a, comma);
    assert comma[1..] == "";
  }

  lemma {:induction false} CommasOnlySeparate(digits: string)
    requires AllDigits(digits)
    ensures Uncomma(Commas(digits)) == digits
  {
    if |digits| <= 3 {
      UncommaDigits(digits);
    } else {
      var front, back := digits[..|digits| - 3], digits[|digits| - 3..];
      assert AllDigits(front) && AllDigits(back);
      CommasOnlySeparate(front);
      UncommaDigits(back);
      UncommaJoin(Commas(front), ",", back);
    }
  }

  /** The printed count denotes the number: dropping the commas and reading the digits gives it back. */
  lemma CountReadsBack(n: nat)
    ensures Uncomma(Commas(Digits(n))) == Digits(n) && Value(Digits(n)) == n
  {
    CommasOnlySeparate(Digits(n));
    ValueOfDigits(n);
  }
}
