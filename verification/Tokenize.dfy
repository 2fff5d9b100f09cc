/** Cutting a token stream into fixed-width little-endian shards of whole sequences. */
module Tokenize {
  import opened Text
  import opened Flatten

  type Token = n: nat | n < 0x1_0000_0000

  type Byte = n: nat | n < 256

  datatype Width = U16 | U32

  function BytesOf(width: Width): nat {
    if width == U16 then 2 else 4
  }

  predicate Fits(id: Token, width: Width) {
    width == U16 ==> id < 0x1_0000
  }

  predicate AllFit(ids: seq<Token>, width: Width) {
    forall i :: 0 <= i < |ids| ==> Fits(ids[i], width)
  }

  // ---- Little-endian encoding ----

  /** A token narrowed to the width, low byte first. */
  function TokenBytes(id: Token, width: Width): (r: seq<Byte>)
    ensures |r| == BytesOf(width)
  {
    var low := [id % 256, id / 256 % 256];
    if width == U16 then low else low + [id / 0x1_0000 % 256, id / 0x100_0000 % 256]
  }

  function Encoded(ids: seq<Token>, width: Width): seq<Byte> {
    Flat(ids, (id: Token) => TokenBytes(id, width))
  }

  function TokenOf(bytes: seq<Byte>): Token
    requires |bytes| == 2 || |bytes| == 4
  {
    var low: int := bytes[0] as int + 256 * (bytes[1] as int);
    if |bytes| == 2 then low else low + 0x1_0000 * (bytes[2] as int) + 0x100_0000 * (bytes[3] as int)
  }

  function Decoded(bytes: seq<Byte>, width: Width): seq<Token> {
    var w := BytesOf(width);
    if |bytes| < w then [] else [TokenOf(bytes[..w])] + Decoded(bytes[w..], width)
  }

  method EncodeShard(ids: seq<Token>, width: Width) returns (out: seq<Byte>)
    ensures out == Encoded(ids, width)
  {
    out := Update([], ids, (id: Token) => TokenBytes(id, width));
    assert [] + Encoded(ids, width) == Encoded(ids, width);
  }

  lemma TokenRoundTrip(id: Token, width: Width)
    requires Fits(id, width)
    ensures TokenOf(TokenBytes(id, width)) == id
  {
    var a, b, c := id / 256, id / 0x1_0000, id / 0x100_0000;
    assert id == id % 256 + 256 * a && a == a % 256 + 256 * (a / 256) && a / 256 == b;
    assert b == b % 256 + 256 * (b / 256) && b / 256 == c && c % 256 == c;
  }

  lemma {:induction false} DecodeEncoded(ids: seq<Token>, width: Width)
    requires AllFit(ids, width)
    ensures Decoded(Encoded(ids, width), width) == ids && |Encoded(ids, width)| == |ids| * BytesOf(width)
  {
    if ids != [] {
      var bytes, w := Encoded(ids, width), BytesOf(width);
      assert bytes[..w] == TokenBytes(ids[0], width) && bytes[w..] == Encoded(ids[1..], width);
      TokenRoundTrip(ids[0], width);
      DecodeEncoded(ids[1..], width);
      assert ids == [ids[0]] + ids[1..];
    }
  }

  // ---- Reading tokens ----

  /** The tokens of the first `k` encoded lines. */
  ghost function Joined(lines: seq<Result<seq<Token>>>, k: nat): seq<Token>
    requires k <= |lines| && forall i :: 0 <= i < k ==> lines[i].Ok?
  {
    if k == 0 then [] else Joined(lines, k - 1) + lines[k - 1].value
  }

  ghost predicate Readable(lines: seq<Result<seq<Token>>>, k: nat) {
    k <= |lines| && forall i :: 0 <= i < k ==> lines[i].Ok?
  }

  function Taken<T>(s: seq<T>, cap: nat): seq<T> {
    if |s| <= cap then s else s[..cap]
  }

  /** Where reading stops: at the end, at the cap, or at a line that does not encode. */
  ghost function StopFrom(lines: seq<Result<seq<Token>>>, cap: nat, i: nat): (k: nat)
    requires Readable(lines, i)
    ensures i <= k && Readable(lines, k) && (k == |lines| || |Joined(lines, k)| >= cap || lines[k].Err?)
    ensures forall j :: i <= j < k ==> |Joined(lines, j)| < cap
    decreases |lines| - i
  {
    if i == |lines| || |Joined(lines, i)| >= cap || lines[i].Err? then i else StopFrom(lines, cap, i + 1)
  }

  /** The tokens read: those before the stop, cut to the cap; an error when a line before the cap does not encode. */
  ghost function Capped(lines: seq<Result<seq<Token>>>, cap: nat): Result<seq<Token>> {
    var k := StopFrom(lines, cap, 0);
    if k < |lines| && |Joined(lines, k)| < cap then Err else Ok(Taken(Joined(lines, k), cap))
  }

  /** Encode line by line until the cap is reached. */
  method ReadTokens(lines: seq<Result<seq<Token>>>, cap: nat) returns (r: Result<seq<Token>>)
    ensures r == Capped(lines, cap)
  {
    var ids: seq<Token> := [];
    var i := 0;
    while i < |lines| && |ids| < cap
      invariant Readable(lines, i) && ids == Joined(lines, i) && StopFrom(lines, cap, i) == StopFrom(lines, cap, 0)
    {
      if lines[i].Err? {
        return Err;
      }
      ids := ids + lines[i].value;
      i := i + 1;
    }
    r := Ok(Taken(ids, cap));
  }

  lemma {:induction false} JoinedGrows(lines: seq<Result<seq<Token>>>, j: nat, k: nat)
    requires j <= k && Readable(lines, k)
    ensures Joined(lines, j) <= Joined(lines, k)
    decreases k
  {
    if j < k {
      JoinedGrows(lines, j, k - 1);
    }
  }

  /** Enough readable lines: all of them, or as many as reach the cap. */
  ghost predicate Enough(lines: seq<Result<seq<Token>>>, cap: nat, k: nat) {
    Readable(lines, k) && (k == |lines| || |Joined(lines, k)| >= cap)
  }

  /** Reading succeeds if and only if enough lines encode, whatever comes after them, and then gives the
      capped stream of any such lines. */
  lemma ReadingIsCapping(lines: seq<Result<seq<Token>>>, cap: nat)
    ensures Capped(lines, cap).Ok? <==> exists k :: Enough(lines, cap, k)
    ensures forall k :: Enough(lines, cap, k) ==> Capped(lines, cap) == Ok(Taken(Joined(lines, k), cap))
  {
    var stop := StopFrom(lines, cap, 0);
    if Capped(lines, cap).Ok? { assert Enough(lines, cap, stop); }
    forall k | Enough(lines, cap, k) ensures Capped(lines, cap) == Ok(Taken(Joined(lines, k), cap)) {
      StopIsEnough(lines, cap, k, stop);
    }
  }

  lemma StopIsEnough(lines: seq<Result<seq<Token>>>, cap: nat, k: nat, stop: nat)
    requires Enough(lines, cap, k) && stop == StopFrom(lines, cap, 0)
    ensures stop <= k && Enough(lines, cap, stop) && Taken(Joined(lines, stop), cap) == Taken(Joined(lines, k), cap)
  {
    JoinedGrows(lines, stop, k);
  }

  function LineTokens(line: Result<seq<Token>>): seq<Token> {
    if line.Ok? then line.value else []
  }

  lemma {:induction false} JoinedIsFlat(lines: seq<Result<seq<Token>>>, k: nat)
    requires Readable(lines, k)
    ensures Joined(lines, k) == Flat(lines[..k], LineTokens)
  {
    if k > 0 {
      JoinedIsFlat(lines, k - 1);
      assert lines[..k] == lines[..k - 1] + [lines[k - 1]];
      FlatSnoc(lines[..k - 1], lines[k - 1], LineTokens);
    }
  }

  /** What is read is a prefix of the tokens of any such lines, put together in order; it is all of them, or
      as many as the cap allows. */
  lemma ReadingIsPrefix(lines: seq<Result<seq<Token>>>, cap: nat, k: nat)
    requires Enough(lines, cap, k)
    ensures Capped(lines, cap).Ok?
    ensures var read, all := Capped(lines, cap).value, Flat(lines[..k], LineTokens);
      read <= all && |read| <= cap && (|read| == cap || |read| == |all|)
  {
    ReadingIsCapping(lines, cap);
    JoinedIsFlat(lines, k);
  }

  // ---- Whole sequences ----

  function Times(k: nat, seqLen: nat): int {
    k * seqLen
  }

  /** A whole number of sequences. */
  ghost predicate Whole(n: int, seqLen: nat) {
    exists k: nat :: n == Times(k, seqLen)
  }

  /** The largest whole number of sequences that is at most `n`. */
  function AlignDown(n: nat, seqLen: nat): nat
    requires seqLen > 0
  {
    n / seqLen * seqLen
  }

  lemma AlignDownIs(n: nat, seqLen: nat)
    requires seqLen > 0
    ensures Whole(AlignDown(n, seqLen), seqLen) && AlignDown(n, seqLen) <= n < AlignDown(n, seqLen) + seqLen
  {
    assert AlignDown(n, seqLen) == Times(n / seqLen, seqLen);
  }

  lemma WholeSum(a: int, b: int, seqLen: nat)
    requires Whole(a, seqLen) && Whole(b, seqLen)
    ensures Whole(a + b, seqLen)
  {
    var x: nat, y: nat :| a == Times(x, seqLen) && b == Times(y, seqLen);
    assert a + b == Times(x + y, seqLen);
  }

  lemma WholeDifference(a: int, b: int, seqLen: nat)
    requires b <= a && Whole(a, seqLen) && Whole(b, seqLen)
    ensures Whole(a - b, seqLen)
  {
    var x: nat, y: nat :| a == Times(x, seqLen) && b == Times(y, seqLen);
    if x >= y {
      assert a - b == Times(x - y, seqLen);
    } else {
      assert Times(y, seqLen) - Times(x, seqLen) == Times(y - x, seqLen) >= 0;
      assert a - b == Times(0, seqLen);
    }
  }

  lemma WholeIsEnough(n: int, seqLen: nat)
    requires n > 0 && Whole(n, seqLen)
    ensures n >= seqLen
  {
    var k: nat :| n == Times(k, seqLen);
    if k >= 1 { assert Times(k, seqLen) == Times(k - 1, seqLen) + seqLen; }
  }

  /** Something is kept exactly when there is a whole sequence to keep. */
  lemma AlignDownKeeps(n: nat, seqLen: nat)
    requires seqLen > 0
    ensures AlignDown(n, seqLen) > 0 <==> n >= seqLen
    ensures AlignDown(n, seqLen) >= seqLen <==> n >= seqLen
  {
    AlignDownIs(n, seqLen);
    if AlignDown(n, seqLen) > 0 { WholeIsEnough(AlignDown(n, seqLen), seqLen); }
  }

  // ---- Shards ----

  datatype Shard = Shard(bytes: seq<Byte>, tokens: nat)

  ghost function DecodedAll(shards: seq<Shard>, width: Width): seq<Token> {
    if shards == [] then [] else DecodedAll(shards[..|shards| - 1], width) + Decoded(shards[|shards| - 1].bytes, width)
  }

  ghost function Count(shards: seq<Shard>): nat {
    if shards == [] then 0 else Count(shards[..|shards| - 1]) + shards[|shards| - 1].tokens
  }

  ghost predicate ShardOk(shard: Shard, seqLen: nat, perShard: nat, width: Width) {
    0 < shard.tokens <= perShard && Whole(shard.tokens, seqLen) && |shard.bytes| == shard.tokens * BytesOf(width)
  }

  /** Shards of whole sequences: all but the last hold exactly `perShard` tokens, the last at most that. */
  ghost predicate ShardsOk(shards: seq<Shard>, seqLen: nat, perShard: nat, width: Width) {
    && (forall i :: 0 <= i < |shards| ==> ShardOk(shards[i], seqLen, perShard, width))
    && (forall i :: 0 <= i < |shards| - 1 ==> shards[i].tokens == perShard)
  }

  ghost predicate AllFull(shards: seq<Shard>, perShard: nat) {
    forall i :: 0 <= i < |shards| ==> shards[i].tokens == perShard
  }

  /** The shards so far are the tokens up to the cursor. */
  ghost predicate CutUpTo(shards: seq<Shard>, ids: seq<Token>, cursor: nat, width: Width) {
    cursor <= |ids| && DecodedAll(shards, width) == ids[..cursor] && Count(shards) == cursor
  }

  lemma CutFurther(shards: seq<Shard>, ids: seq<Token>, cursor: nat, end: nat, shard: Shard, width: Width)
    requires CutUpTo(shards, ids, cursor, width) && cursor <= end <= |ids|
    requires Decoded(shard.bytes, width) == ids[cursor..end] && shard.tokens == end - cursor
    ensures CutUpTo(shards + [shard], ids, end, width)
  {
    assert (shards + [shard])[..|shards|] == shards;
    assert ids[..end] == ids[..cursor] + ids[cursor..end];
  }

  method CutShards(ids: seq<Token>, seqLen: nat, perShard: nat, width: Width) returns (shards: seq<Shard>)
    requires perShard > 0 && Whole(perShard, seqLen) && Whole(|ids|, seqLen) && AllFit(ids, width)
    ensures CutUpTo(shards, ids, |ids|, width) && ShardsOk(shards, seqLen, perShard, width)
  {
    shards := [];
    var cursor := 0;
    assert Whole(0, seqLen) by { assert 0 == Times(0, seqLen); }
    while cursor < |ids|
      invariant CutUpTo(shards, ids, cursor, width) && Whole(cursor, seqLen)
      invariant ShardsOk(shards, seqLen, perShard, width)
      invariant cursor < |ids| ==> AllFull(shards, perShard)
    {
      var end := if cursor + perShard < |ids| then cursor + perShard else |ids|;
      var chunk := ids[cursor..end];
      var bytes := EncodeShard(chunk, width);
      DecodeEncoded(chunk, width);
      if end == |ids| { WholeDifference(|ids|, cursor, seqLen); } else { WholeSum(cursor, perShard, seqLen); }
      CutFurther(shards, ids, cursor, end, Shard(bytes, |chunk|), width);
      shards := shards + [Shard(bytes, |chunk|)];
      cursor := end;
    }
  }

  datatype Manifest = Manifest(shards: seq<Shard>, totalTokens: nat)

  /** The shards decoded and put together are the longest whole-sequence prefix of the tokens; each is a
      whole number of sequences and all but the last are full. Fails exactly when a shard cannot hold a
      sequence, the tokens do not fill one, or a kept token does not fit the width. */
  /** What is kept fits when its tokens do, which all do in four bytes and those below 65536 in two. */
  lemma AlignedIsKept(tokens: seq<Token>, seqLen: nat, width: Width)
    requires seqLen > 0
    ensures AlignDown(|tokens|, seqLen) == |tokens| - |tokens| % seqLen
    ensures AllFit(tokens[..AlignDown(|tokens|, seqLen)], width) <==>
      (width == U16 ==> forall i :: 0 <= i < |tokens| - |tokens| % seqLen ==> tokens[i] < 65536)
  {
    var n := AlignDown(|tokens|, seqLen);
    assert |tokens| == n + |tokens| % seqLen;
    assert forall i :: 0 <= i < n ==> tokens[..n][i] == tokens[i];
  }

  method Author(tokens: seq<Token>, seqLen: nat, shardTokens: nat, width: Width) returns (r: Result<Manifest>)
    ensures r.Ok? <==>
      0 < seqLen <= shardTokens && seqLen <= |tokens| && AllFit(tokens[..AlignDown(|tokens|, seqLen)], width)
    ensures r.Ok? ==>
      var usable := AlignDown(|tokens|, seqLen);
      && usable <= |tokens| < usable + seqLen && r.value.totalTokens == usable
      && DecodedAll(r.value.shards, width) == tokens[..usable] && Count(r.value.shards) == usable
        && Whole(usable, seqLen)
      && ShardsOk(r.value.shards, seqLen, AlignDown(shardTokens, seqLen), width)
    ensures r.Ok? <==>
      && 0 < seqLen <= shardTokens && seqLen <= |tokens|
      && (width == U16 ==> forall i :: 0 <= i < |tokens| - |tokens| % seqLen ==> tokens[i] < 65536)
  {
    if seqLen > 0 { AlignedIsKept(tokens, seqLen, width); }
    if seqLen == 0 || shardTokens == 0 {
      return Err;
    }
    var perShard := AlignDown(shardTokens, seqLen);
    AlignDownIs(shardTokens, seqLen);
    AlignDownKeeps(shardTokens, seqLen);
    if perShard == 0 {
      return Err;
    }
    var usable := AlignDown(|tokens|, seqLen);
    AlignDownIs(|tokens|, seqLen);
    AlignDownKeeps(|tokens|, seqLen);
    if usable < seqLen {
      return Err;
    }
    var ids := tokens[..usable];
    if !AllFit(ids, width) {
      return Err;
    }
    var shards := CutShards(ids, seqLen, perShard, width);
    assert ids[..|ids|] == ids;
    r := Ok(Manifest(shards, usable));
  }

  const U64_MAX: nat := 0xFFFF_FFFF_FFFF_FFFF

  /** The whole run: read the encoded lines up to the cap, then author the shards. It fails when reading
      or authoring does; otherwise the shards hold the longest whole-sequence prefix of what was read. */
  method TokenizeCorpus(lines: seq<Result<seq<Token>>>, maxTokens: Option<nat>, seqLen: nat, shardTokens: nat,
      width: Width)
    returns (r: Result<Manifest>)
    ensures var read := Capped(lines, if maxTokens.Some? then maxTokens.value else 18446744073709551615);
      if read.Err? then r.Err?
      else
        var stream := read.value;
        && (r.Ok? <==>
          0 < seqLen <= shardTokens && seqLen <= |stream| && AllFit(stream[..AlignDown(|stream|, seqLen)], width))
        && (r.Ok? ==>
             && r.value.totalTokens == AlignDown(|stream|, seqLen) == Count(r.value.shards)
             && DecodedAll(r.value.shards, width) == stream[..AlignDown(|stream|, seqLen)]
             && ShardsOk(r.value.shards, seqLen, AlignDown(shardTokens, seqLen), width))
  {
    var tokens := ReadTokens(lines, if maxTokens.Some? then maxTokens.value else U64_MAX);
    if tokens.Err? {
      return Err;
    }
    r := Author(tokens.value, seqLen, shardTokens, width);
  }
}
