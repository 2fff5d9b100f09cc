/** The cursored ring and the sequence-stamped merged session log over it. */
module MergedLog {
  import opened Flatten

  /** A ring of `(id, item)` with ids from 1; a nonzero capacity evicts the oldest entries. */
  class CursoredRing<T(0)> {
    var ring: seq<(nat, T)>
    var nextId: nat
    var floor: nat
    const cap: nat

    /** The retained ids are exactly `floor + 1 .. head`. */
    ghost predicate Contiguous()
      reads this
    {
      nextId == floor + |ring| + 1 && forall i :: 0 <= i < |ring| ==> ring[i].0 == floor + 1 + i
    }

    /** ... and only a bounded ring ever evicts. */
    ghost predicate Valid()
      reads this
    {
      Contiguous() && (if cap == 0 then floor == 0 else |ring| <= cap)
    }

    constructor (cap: nat)
      ensures Valid() && ring == [] && floor == 0 && this.cap == cap
    {
      this.cap := cap;
      ring, nextId, floor := [], 1, 0;
    }

    /** Append, then evict down to the capacity, raising the floor past what was evicted. */
    method Push(item: T) returns (id: nat)
      requires Valid()
      modifies this
      ensures Valid() && id == old(nextId) && nextId == old(nextId) + 1
      ensures ring == var all := old(ring) + [(id, item)]; if cap == 0 then all else LastOf(all, cap)
    {
      id := nextId;
      nextId := nextId + 1;
      ring := ring + [(id, item)];
      if cap != 0 {
        Evict();
      }
    }

    method Evict()
      requires Contiguous() && cap != 0
      modifies this`ring, this`floor
      ensures Contiguous() && ring == LastOf(old(ring), cap)
    {
      ghost var all, base := ring, floor;
      while |ring| > cap
        invariant |ring| <= |all| && floor == base + |all| - |ring|
        invariant |ring| == |all| || |ring| >= cap
        invariant forall i :: 0 <= i < |ring| ==> ring[i] == all[|all| - |ring| + i]
      {
        floor := Max(floor, ring[0].0);
        ring := ring[1..];
      }
    }

    /** The retained entries past `after`, at most `max` of them unless `max` is 0. */
    method Page(after: nat, max: nat) returns (out: seq<(nat, T)>)
      requires Valid()
      ensures out == Cut(ring[if after < floor then 0 else if after - floor > |ring| then |ring|
        else after - floor..], max)
    {
      out := [];
      ghost var from := if after < floor then 0 else if after - floor > |ring| then |ring| else after - floor;
      for i := 0 to |ring|
        invariant out == if i < from then [] else ring[from..i]
        invariant max == 0 || |out| < max
      {
        if ring[i].0 > after {
          out := out + [ring[i]];
          if max != 0 && |out| >= max {
            assert out == ring[from..i + 1] == ring[from..][..max];
            return;
          }
        }
      }
    }
  }

  function Max(a: nat, b: nat): nat {
    if a >= b then a else b
  }

  /** The first `max` elements, or all of them when `max` is 0. */
  function Cut<T>(s: seq<T>, max: nat): seq<T> {
    if max == 0 || |s| <= max then s else s[..max]
  }

  datatype Direction = Inbound | Outbound
  datatype Disposition = Context | Transport
  datatype Origin = Engine | Ffi | External(name: string)

  datatype LogEntry<P> = LogEntry(seqNo: nat, direction: Direction, origin: Origin, disposition: Disposition,
      payload: P)

  datatype LogPage<P> = LogPage(entries: seq<LogEntry<P>>, nextSeq: nat, headSeq: nat)

  /** Sequence numbers are exactly 1 to the length, in position order. */
  ghost predicate Stamped<P>(log: seq<LogEntry<P>>) {
    forall i :: 0 <= i < |log| ==> log[i].seqNo == i + 1
  }

  function Past<P>(log: seq<LogEntry<P>>, after: nat): seq<LogEntry<P>> {
    if after >= |log| then [] else log[after..]
  }

  function PageOf<P>(log: seq<LogEntry<P>>, after: nat, max: nat): LogPage<P> {
    var entries := Cut(Past(log, after), max);
    LogPage(entries, if entries == [] then after else entries[|entries| - 1].seqNo, |log|)
  }

  /** The log with one more entry, stamped with the next number. */
  function Appended<P>(log: seq<LogEntry<P>>, direction: Direction, origin: Origin, disposition: Disposition,
      payload: P): seq<LogEntry<P>> {
    log + [LogEntry(|log| + 1, direction, origin, disposition, payload)]
  }

  /** The merged log: an unbounded ring whose entries carry their ring id as sequence number. */
  class Merged<P(0)> {
    const ring: CursoredRing<LogEntry<P>>

    ghost predicate Valid()
      reads this, ring
    {
      ring.Valid() && ring.cap == 0 && forall i :: 0 <= i < |ring.ring| ==> ring.ring[i].1.seqNo == ring.ring[i].0
    }

    ghost function Entries(): seq<LogEntry<P>>
      reads this, ring
    {
      seq(|ring.ring|, i requires 0 <= i < |ring.ring| reads ring => ring.ring[i].1)
    }

    constructor ()
      ensures Valid() && fresh(ring) && Entries() == []
    {
      ring := new CursoredRing(0);
    }

    method Append(direction: Direction, origin: Origin, disposition: Disposition, payload: P)
      requires Valid()
      modifies ring
      ensures Valid() && Stamped(Entries())
      ensures Entries() == Appended(old(Entries()), direction, origin, disposition, payload)
    {
      var entry := LogEntry(ring.nextId, direction, origin, disposition, payload);
      var _ := ring.Push(entry);
    }

    method Page(after: nat, max: nat) returns (page: LogPage<P>)
      requires Valid()
      ensures page == PageOf(Entries(), after, max)
      ensures Stamped(Entries())
    {
      var cut := ring.Page(after, max);
      var entries := seq(|cut|, i requires 0 <= i < |cut| => cut[i].1);
      assert entries == Cut(Past(Entries(), after), max);
      page := LogPage(entries, if entries == [] then after else entries[|entries| - 1].seqNo, ring.nextId - 1);
    }

    /** The backlog a subscriber gets at once, and the sequence number after which it hears live appends;
        both are taken under one lock, so no append falls between them. */
    method Subscribe(after: nat) returns (backlog: seq<LogEntry<P>>, heardFrom: nat)
      requires Valid()
      ensures backlog == Past(Entries(), after) && heardFrom == |Entries()|
      ensures Stamped(Entries())
    {
      var cut := ring.Page(after, 0);
      backlog := seq(|cut|, i requires 0 <= i < |cut| => cut[i].1);
      heardFrom := ring.nextId - 1;
    }
  }

  // ---- Reading the log page by page ----

  /** One read: the log as it stands then, and the page size asked for. */
  datatype Read<P> = Read(log: seq<LogEntry<P>>, max: nat)

  /** A reader's cursor and what it has collected after a sequence of pulls from `next_seq`. */
  ghost function Reader<P>(pulls: seq<Read<P>>): (nat, seq<LogEntry<P>>) {
    if pulls == [] then (0, [])
    else
      var (cursor, collected) := Reader(pulls[..|pulls| - 1]);
      var r := pulls[|pulls| - 1];
      var page := PageOf(r.log, cursor, r.max);
      (page.nextSeq, collected + page.entries)
  }

  ghost predicate Growing<P>(pulls: seq<Read<P>>) {
    && (forall i :: 0 <= i < |pulls| ==> Stamped(pulls[i].log))
    && (forall i :: 0 < i < |pulls| ==> pulls[i - 1].log <= pulls[i].log)
  }

  /** A page continues the log exactly where the cursor stands, and is empty only at the head. */
  lemma PageContinues<P>(log: seq<LogEntry<P>>, cursor: nat, max: nat)
    requires Stamped(log) && cursor <= |log|
    ensures var page := PageOf(log, cursor, max);
      && cursor <= page.nextSeq <= |log| && log[..cursor] + page.entries == log[..page.nextSeq]
      && (page.nextSeq == cursor <==> cursor == |log|)
      && (max == 0 ==> page.nextSeq == |log|) && page.headSeq == |log|
      && (max > 0 ==> |page.entries| <= max && (|page.entries| < max ==> page.nextSeq == |log|))
  {
    var entries := PageOf(log, cursor, max).entries;
    assert |entries| <= |log| - cursor;
    forall i | 0 <= i < |entries| ensures entries[i] == log[cursor + i] {}
    assert log[..cursor] + entries == log[..cursor + |entries|];
  }

  /** A cursor beyond the head gets nothing and stays where it is. */
  lemma PageBeyondHead<P>(log: seq<LogEntry<P>>, cursor: nat, max: nat)
    requires cursor > |log|
    ensures PageOf(log, cursor, max) == LogPage([], cursor, |log|)
  {}

  /** However appends fall between the reads and whatever page sizes are asked for, the reader has
      collected each entry up to its cursor exactly once, in order; and it stands still only at the head. */
  lemma {:induction false} PagingCollectsAll<P>(pulls: seq<Read<P>>)
    requires Growing(pulls) && pulls != []
    ensures var (cursor, collected) := Reader(pulls);
      var log := pulls[|pulls| - 1].log;
      && cursor <= |log| && collected == log[..cursor]
      && (pulls[|pulls| - 1].max == 0 ==> cursor == |log|)
      && (cursor == Reader(pulls[..|pulls| - 1]).0 ==> cursor == |log|)
  {
    var front, log, max := pulls[..|pulls| - 1], pulls[|pulls| - 1].log, pulls[|pulls| - 1].max;
    var (cursor, collected) := Reader(front);
    if front != [] {
      PagingCollectsAll(front);
      var seen := front[|front| - 1].log;
      assert seen <= log;
      assert log[..cursor] == seen[..cursor];
    }
    PageContinues(log, cursor, max);
  }
}
