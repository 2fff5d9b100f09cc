/** The memo key of a suite: what it records, how that is laid out as a list of hashed fragments, and
    that nothing is lost on the way. The hash is taken to be injective on fragment lists. */
module KeyFormat {
  import opened Text
  import opened PathRange
  import opened Flatten

  /** One argument of a hash update: raw bytes, or the hex digest of an inner list of updates. */
  datatype Fragment = Bytes(text: string) | Hex(inner: seq<Fragment>)

  /** What the key says about one name of the closure. */
  datatype Block =
    | CrateBlock(name: string, index: seq<Entry>, dirty: seq<Entry>)
    | ExternBlock(name: string, meta: string)

  /** What the key says. */
  datatype KeyView = KeyView(globals: Fragment, blocks: seq<Block>, guests: Option<Fragment>, title: string,
      args: string)

  function IndexEntry(e: Entry): seq<Fragment> {
    [Bytes(e.path), Bytes("="), Bytes(e.id), Bytes(";")]
  }

  function DirtyEntry(e: Entry): seq<Fragment> {
    [Bytes("dirty:"), Bytes(e.path), Bytes("="), Bytes(e.id), Bytes(";")]
  }

  function IndexFragments(es: seq<Entry>): seq<Fragment> {
    Flat(es, IndexEntry)
  }

  function DirtyFragments(es: seq<Entry>): seq<Fragment> {
    Flat(es, DirtyEntry)
  }

  function BlockFragments(b: Block): seq<Fragment> {
    match b
    case CrateBlock(name, index, dirty) =>
      [Bytes("crate:"), Bytes(name), Bytes("=")] + (IndexFragments(index) + (DirtyFragments(dirty) + [Bytes("\n")]))
    case ExternBlock(name, meta) =>
      [Bytes("extern:"), Bytes(name), Bytes("="), Bytes(meta), Bytes("\n")]
  }

  function BlocksFragments(blocks: seq<Block>): seq<Fragment> {
    Flat(blocks, BlockFragments)
  }

  function TailFragments(v: KeyView): seq<Fragment> {
    (if v.guests.Some? then [Bytes("guests="), v.guests.value] else [])
    + [Bytes("suite="), Bytes(v.title), Bytes(" "), Bytes(v.args)]
  }

  function KeyFragments(v: KeyView): seq<Fragment> {
    [Bytes("globals="), v.globals] + (BlocksFragments(v.blocks) + TailFragments(v))
  }

  // ---- Reading the fragments back ----

  /** A path that cannot be mistaken for one of the markers that may follow a listing. */
  predicate Plain(path: string) {
    path != "dirty:" && path != "\n"
  }

  predicate StartsEntry(fs: seq<Fragment>) {
    |fs| >= 4 && fs[0].Bytes? && Plain(fs[0].text) && fs[2].Bytes?
  }

  function ReadIndex(fs: seq<Fragment>): (seq<Entry>, seq<Fragment>) {
    if StartsEntry(fs) then
      var (es, rest) := ReadIndex(fs[4..]);
      ([Entry(fs[0].text, fs[2].text)] + es, rest)
    else ([], fs)
  }

  function ReadDirty(fs: seq<Fragment>): (seq<Entry>, seq<Fragment>) {
    if |fs| >= 5 && fs[0] == Bytes("dirty:") && fs[1].Bytes? && fs[3].Bytes? then
      var (es, rest) := ReadDirty(fs[5..]);
      ([Entry(fs[1].text, fs[3].text)] + es, rest)
    else ([], fs)
  }

  /** The listings at the start of `fs`, and what follows them. */
  function ReadListing(fs: seq<Fragment>): (seq<Entry>, seq<Entry>, seq<Fragment>) {
    var (index, afterIndex) := ReadIndex(fs);
    var (dirty, rest) := ReadDirty(afterIndex);
    (index, dirty, rest)
  }

  predicate AllPlain(es: seq<Entry>) {
    forall i :: 0 <= i < |es| ==> Plain(es[i].path)
  }

  lemma {:induction false} ReadIndexBack(es: seq<Entry>, rest: seq<Fragment>)
    requires AllPlain(es) && !StartsEntry(rest)
    ensures ReadIndex(IndexFragments(es) + rest) == (es, rest)
  {
    var fs := IndexFragments(es) + rest;
    if es == [] {
      assert fs == rest;
    } else {
      assert fs[4..] == IndexFragments(es[1..]) + rest;
      ReadIndexBack(es[1..], rest);
      assert es == [es[0]] + es[1..];
    }
  }

  lemma {:induction false} ReadDirtyBack(es: seq<Entry>, rest: seq<Fragment>)
    requires rest == [] || rest[0] != Bytes("dirty:")
    ensures ReadDirty(DirtyFragments(es) + rest) == (es, rest)
  {
    var fs := DirtyFragments(es) + rest;
    if es == [] {
      assert fs == rest;
    } else {
      assert fs[5..] == DirtyFragments(es[1..]) + rest;
      ReadDirtyBack(es[1..], rest);
      assert es == [es[0]] + es[1..];
    }
  }

  lemma ReadListingBack(index: seq<Entry>, dirty: seq<Entry>, rest: seq<Fragment>)
    requires AllPlain(index)
    requires rest == [] || rest[0] == Bytes("\n")
    ensures ReadListing(IndexFragments(index) + (DirtyFragments(dirty) + rest)) == (index, dirty, rest)
  {
    var after := DirtyFragments(dirty) + rest;
    assert !StartsEntry(after) by {
      if dirty != [] { assert after[0] == Bytes("dirty:"); } else { assert after == rest; }
    }
    ReadIndexBack(index, after);
    ReadDirtyBack(dirty, rest);
  }

  /** The block at the start of `fs`, and what follows it. */
  function ReadBlock(fs: seq<Fragment>): Option<(Block, seq<Fragment>)> {
    if |fs| >= 5 && fs[0] == Bytes("extern:") && fs[1].Bytes? && fs[3].Bytes? then
      Some((ExternBlock(fs[1].text, fs[3].text), fs[5..]))
    else if |fs| >= 3 && fs[0] == Bytes("crate:") && fs[1].Bytes? then
      var (index, dirty, rest) := ReadListing(fs[3..]);
      if rest == [] || |rest| >= |fs| then None else Some((CrateBlock(fs[1].text, index, dirty), rest[1..]))
    else None
  }

  function ReadBlocks(fs: seq<Fragment>): (seq<Block>, seq<Fragment>)
    decreases |fs|
  {
    match ReadBlock(fs)
    case None => ([], fs)
    case Some((b, rest)) =>
      var (bs, last) := ReadBlocks(rest);
      ([b] + bs, last)
  }

  predicate PlainBlock(b: Block) {
    b.CrateBlock? ==> AllPlain(b.index)
  }

  lemma ReadCrateBack(name: string, index: seq<Entry>, dirty: seq<Entry>, rest: seq<Fragment>)
    requires AllPlain(index)
    ensures var b := CrateBlock(name, index, dirty); ReadBlock(BlockFragments(b) + rest) == Some((b, rest))
  {
    var head := [Bytes("crate:"), Bytes(name), Bytes("=")];
    var after := [Bytes("\n")] + rest;
    var body := IndexFragments(index) + (DirtyFragments(dirty) + after);
    assert BlockFragments(CrateBlock(name, index, dirty)) + rest == head + body;
    var fs := head + body;
    assert fs[0] == Bytes("crate:") && fs[1] == Bytes(name) && fs[3..] == body;
    assert fs[0] != Bytes("extern:") by { assert "crate:"[0] == 'c' && "extern:"[0] == 'e'; }
    ReadListingBack(index, dirty, after);
    assert after[1..] == rest && |after| < |fs|;
  }

  lemma ReadExternBack(name: string, meta: string, rest: seq<Fragment>)
    ensures var b := ExternBlock(name, meta); ReadBlock(BlockFragments(b) + rest) == Some((b, rest))
  {
    var fs := BlockFragments(ExternBlock(name, meta)) + rest;
    assert fs[0] == Bytes("extern:") && fs[1] == Bytes(name) && fs[3] == Bytes(meta) && fs[5..] == rest;
  }

  lemma ReadBlockBack(b: Block, rest: seq<Fragment>)
    requires PlainBlock(b)
    ensures ReadBlock(BlockFragments(b) + rest) == Some((b, rest))
  {
    match b
    case ExternBlock(name, meta) => ReadExternBack(name, meta, rest);
    case CrateBlock(name, index, dirty) => ReadCrateBack(name, index, dirty, rest);
  }

  lemma {:induction false} ReadBlocksBack(blocks: seq<Block>, rest: seq<Fragment>)
    requires forall b <- blocks :: PlainBlock(b)
    requires ReadBlock(rest).None?
    ensures ReadBlocks(BlocksFragments(blocks) + rest) == (blocks, rest)
  {
    if blocks == [] {
      assert BlocksFragments(blocks) + rest == rest;
    } else {
      var after := BlocksFragments(blocks[1..]) + rest;
      assert BlocksFragments(blocks) + rest == BlockFragments(blocks[0]) + after;
      ReadBlockBack(blocks[0], after);
      ReadBlocksBack(blocks[1..], rest);
      assert blocks == [blocks[0]] + blocks[1..];
    }
  }

  /** Two views with the same fragments are the same view: the key loses nothing of what it records. */
  lemma KeyIsUnambiguous(v: KeyView, w: KeyView)
    requires forall b <- v.blocks :: PlainBlock(b)
    requires forall b <- w.blocks :: PlainBlock(b)
    requires KeyFragments(v) == KeyFragments(w)
    ensures v == w
  {
    var bv, bw := BlocksFragments(v.blocks) + TailFragments(v), BlocksFragments(w.blocks) + TailFragments(w);
    assert KeyFragments(v)[2..] == bv && KeyFragments(w)[2..] == bw;
    assert KeyFragments(v)[1] == v.globals && KeyFragments(w)[1] == w.globals;
    TailIsNoBlock(v);
    TailIsNoBlock(w);
    ReadBlocksBack(v.blocks, TailFragments(v));
    ReadBlocksBack(w.blocks, TailFragments(w));
    TailIsUnambiguous(v, w);
  }

  lemma TailIsNoBlock(v: KeyView)
    ensures ReadBlock(TailFragments(v)).None?
  {
    var first := TailFragments(v)[0];
    assert first == Bytes("guests=") || first == Bytes("suite=");
    assert "guests="[0] == 'g' && "suite="[0] == 's' && "extern:"[0] == 'e' && "crate:"[0] == 'c';
  }

  lemma TailIsUnambiguous(v: KeyView, w: KeyView)
    requires TailFragments(v) == TailFragments(w)
    ensures v.guests == w.guests && v.title == w.title && v.args == w.args
  {
    var t := TailFragments(v);
    assert |t| == (if v.guests.Some? then 6 else 4) && |t| == if w.guests.Some? then 6 else 4;
    if |t| == 6 {
      assert t[1] == v.guests.value == w.guests.value;
      assert t[3] == Bytes(v.title) == Bytes(w.title) && t[5] == Bytes(v.args) == Bytes(w.args);
    } else {
      assert t[1] == Bytes(v.title) == Bytes(w.title) && t[3] == Bytes(v.args) == Bytes(w.args);
    }
  }
}
