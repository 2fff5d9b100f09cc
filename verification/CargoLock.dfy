/** The line-based `Cargo.lock` reader of the gate, a printer for the same format, and the round
    trip between the two. */
module CargoLock {
  import opened Text
  import opened Sorting

  /** One package name's aggregated identity lines and dependency names. */
  datatype LockPackage = LockPackage(meta: string, deps: set<string>)

  type Lock = map<string, LockPackage>

  /** The accumulators of the reader: the finished packages and the block being read. */
  datatype Scan = Scan(packages: Lock, name: Option<string>, meta: seq<string>, deps: set<string>, inDeps: bool)

  const START := Scan(map[], None, [], {}, false)

  /** Close the block being read: fold it into the entry of its name, if it has one. */
  function Flush(s: Scan): Scan {
    match s.name
    case None => s.(meta := [], deps := {})
    case Some(n) =>
      var was := if n in s.packages then s.packages[n] else LockPackage("", {});
      var now := LockPackage(was.meta + Join(Sort(Leq, s.meta), "\n") + "\n", was.deps + s.deps);
      Scan(s.packages[n := now], None, [], {}, s.inDeps)
  }

  /** The value of a `key = "value"` line. */
  function Quoted(line: string, key: string): Option<string> {
    match StripPrefix(line, key + " = \"")
    case None => None
    case Some(rest) => StripSuffix(rest, '"')
  }

  /** The package name of a dependency line such as ` "name",` or ` "name version",`. */
  function DepName(line: string): Option<string> {
    match StripPrefix(TrimEndMatches(Trim(line), ','), "\"")
    case None => None
    case Some(rest) =>
      match StripSuffix(rest, '"')
      case None => None
      case Some(inner) => Some(FirstWord(inner))
  }

  function ScanLine(s: Scan, raw: string): Result<Scan> {
    var line := TrimEnd(raw);
    if line == "[[package]]" then Ok(Flush(s).(inDeps := false))
    else if s.inDeps then
      if Trim(line) == "]" then Ok(s.(inDeps := false))
      else
        match DepName(line)
        case None => Err
        case Some(d) => Ok(s.(deps := s.deps + {d}))
    else
      match Quoted(line, "name")
      case Some(n) => if s.name.Some? then Err else Ok(s.(name := Some(n)))
      case None =>
        if StartsWith(line, "version") || StartsWith(line, "source") || StartsWith(line, "checksum") then
          Ok(s.(meta := s.meta + [line]))
        else if line == "dependencies = [" then Ok(s.(inDeps := true))
        else Ok(s)
  }

  function ScanLines(s: Scan, lines: seq<string>): Result<Scan>
    decreases lines
  {
    if lines == [] then Ok(s)
    else
      match ScanLine(s, lines[0])
      case Err => Err
      case Ok(t) => ScanLines(t, lines[1..])
  }

  /** What a lock text denotes; an error makes every caller fall back to running everything. */
  function Parsed(text: string): Result<Lock> {
    match ScanLines(START, Lines(text))
    case Err => Err
    case Ok(s) =>
      var packages := Flush(s).packages;
      if packages == map[] then Err else Ok(packages)
  }

  method ParseCargoLock(text: string) returns (r: Result<Lock>)
    ensures r == Parsed(text)
  {
    var lines := Lines(text);
    var s := START;
    for i := 0 to |lines|
      invariant ScanLines(START, lines) == ScanLines(s, lines[i..])
    {
      assert lines[i..][1..] == lines[i + 1..];
      match ScanLine(s, lines[i]) {
        case Err => return Err;
        case Ok(t) => s := t;
      }
    }
    s := Flush(s);
    return if s.packages == map[] then Err else Ok(s.packages);
  }

  // ---- The format, written out ----

  datatype DepRef = DepRef(name: string, version: Option<string>)

  datatype Block = Block(name: string, version: Option<string>, source: Option<string>, checksum: Option<string>,
                         deps: seq<DepRef>)

  predicate OneLine(s: string) {
    '\n' !in s
  }

  predicate WellFormedDep(d: DepRef) {
    && d.name != "" && (forall i :: 0 <= i < |d.name| ==> !IsWhitespace(d.name[i]))
    && (d.version.Some? ==> OneLine(d.version.value))
  }

  predicate WellFormed(b: Block) {
    && OneLine(b.name)
    && (b.version.Some? ==> OneLine(b.version.value))
    && (b.source.Some? ==> OneLine(b.source.value))
    && (b.checksum.Some? ==> OneLine(b.checksum.value))
    && forall d <- b.deps :: WellFormedDep(d)
  }

  function Field(key: string, value: Option<string>): seq<string> {
    if value.Some? then [key + " = \"" + value.value + "\""] else []
  }

  function IdentityLines(b: Block): seq<string> {
    Field("version", b.version) + Field("source", b.source) + Field("checksum", b.checksum)
  }

  function Inner(d: DepRef): string {
    if d.version.Some? then d.name + " " + d.version.value else d.name
  }

  function DepLine(d: DepRef): string {
    " \"" + Inner(d) + "\","
  }

  function DepLines(deps: seq<DepRef>): seq<string> {
    seq(|deps|, i requires 0 <= i < |deps| => DepLine(deps[i]))
  }

  function DepSection(deps: seq<DepRef>): seq<string> {
    if deps == [] then [] else ["dependencies = ["] + DepLines(deps) + ["]"]
  }

  function BlockLines(b: Block): seq<string> {
    ["[[package]]", "name = \"" + b.name + "\""] + IdentityLines(b) + DepSection(b.deps) + [""]
  }

  function BlocksLines(blocks: seq<Block>): seq<string> {
    if blocks == [] then [] else BlockLines(blocks[0]) + BlocksLines(blocks[1..])
  }

  /** A comment line of the header. */
  predicate Comment(line: string) {
    OneLine(line) && line != "" && line[0] == '#' && !IsWhitespace(line[|line| - 1])
  }

  function VersionLine(format: nat): string {
    "version = " + Digits(format)
  }

  function Printed(comments: seq<string>, format: nat, blocks: seq<Block>): string {
    Unlines(comments + [VersionLine(format), ""] + BlocksLines(blocks))
  }

  function DepNames(deps: seq<DepRef>): set<string> {
    set i | 0 <= i < |deps| :: deps[i].name
  }

  // ---- The round trip ----

  lemma {:induction false} ScanConcat(s: Scan, a: seq<string>, b: seq<string>)
    ensures ScanLines(s, a + b) == match ScanLines(s, a) case Err => Err case Ok(t) => ScanLines(t, b)
    decreases a
  {
    if a == [] {
      assert a + b == b;
    } else {
      assert (a + b)[1..] == a[1..] + b;
      var r := ScanLine(s, a[0]);
      if r.Ok? {
        ScanConcat(r.value, a[1..], b);
      }
    }
  }

  lemma ScanOne(s: Scan, line: string)
    ensures ScanLines(s, [line]) == ScanLine(s, line)
  {
    var r := ScanLine(s, line);
    assert [line][1..] == [];
  }

  lemma QuotedLine(key: string, value: string)
    ensures var line := key + " = \"" + value + "\"";
      TrimEnd(line) == line && Quoted(line, key) == Some(value)
  {
    var line := key + " = \"" + value + "\"";
    assert line[|line| - 1] == '"';
    assert StripPrefix(line, key + " = \"") == Some(value + "\"") by {
      assert line[|key + " = \""|..] == value + "\"";
    }
    assert (value + "\"")[..|value|] == value;
  }

  lemma ScanName(s: Scan, name: string)
    requires !s.inDeps && s.name.None?
    ensures ScanLine(s, "name = \"" + name + "\"") == Ok(s.(name := Some(name)))
  {
    var line := "name = \"" + name + "\"";
    QuotedLine("name", name);
    assert line == "name" + " = \"" + name + "\"";
    assert line[0] == 'n';
  }

  lemma ScanField(s: Scan, key: string, value: Option<string>)
    requires !s.inDeps && key in {"version", "source", "checksum"}
    ensures ScanLines(s, Field(key, value)) == Ok(s.(meta := s.meta + Field(key, value)))
  {
    if value.Some? {
      var line := key + " = \"" + value.value + "\"";
      QuotedLine(key, value.value);
      assert line[0] == key[0] && key <= line;
      assert Quoted(line, "name").None? by {
        assert ("name" + " = \"")[0] == 'n';
      }
      ScanOne(s, line);
    } else {
      assert s.meta + [] == s.meta;
    }
  }

  lemma ScanIdentity(s: Scan, b: Block)
    requires !s.inDeps
    ensures ScanLines(s, IdentityLines(b)) == Ok(s.(meta := s.meta + IdentityLines(b)))
  {
    var v, o, c := Field("version", b.version), Field("source", b.source), Field("checksum", b.checksum);
    ScanField(s, "version", b.version);
    var s1 := s.(meta := s.meta + v);
    ScanField(s1, "source", b.source);
    ScanField(s1.(meta := s1.meta + o), "checksum", b.checksum);
    ScanConcat(s, v, o);
    ScanConcat(s, v + o, c);
    assert s.meta + v + o + c == s.meta + (v + o + c);
  }

  lemma {:induction false} WordOf(name: string, rest: string)
    requires forall i :: 0 <= i < |name| ==> !IsWhitespace(name[i])
    requires rest == "" || IsWhitespace(rest[0])
    ensures Word(name + rest) == name
  {
    if name == "" {
      assert name + rest == rest;
    } else {
      assert (name + rest)[1..] == name[1..] + rest;
      WordOf(name[1..], rest);
    }
  }

  /** Trimming a dependency line leaves the quoted reference. */
  lemma DepLineTrim(inner: string)
    ensures var line := " \"" + inner + "\",";
      TrimEnd(line) == line && TrimEndMatches(Trim(line), ',') == "\"" + inner + "\"" && Trim(line) != "]"
  {
    var line, body, quoted := " \"" + inner + "\",", "\"" + inner + "\",", "\"" + inner + "\"";
    assert line[|line| - 1] == ',' && body[|body| - 1] == ',' && quoted[|quoted| - 1] == '"';
    assert line[1..] == body && body[..|body| - 1] == quoted;
    assert TrimStart(line) == TrimStart(body) == body;
    assert TrimEnd(body) == body && TrimEndMatches(body, ',') == TrimEndMatches(quoted, ',') == quoted;
  }

  lemma InnerName(d: DepRef)
    requires WellFormedDep(d)
    ensures FirstWord(Inner(d)) == d.name
  {
    var inner := Inner(d);
    var rest := inner[|d.name|..];
    assert inner == d.name + rest;
    WordOf(d.name, rest);
    assert inner[0] == d.name[0] && TrimStart(inner) == inner;
  }

  lemma DepLineName(d: DepRef)
    requires WellFormedDep(d)
    ensures TrimEnd(DepLine(d)) == DepLine(d) && DepLine(d)[0] == ' '
    ensures Trim(DepLine(d)) != "]" && DepName(DepLine(d)) == Some(d.name)
  {
    var inner := Inner(d);
    DepLineTrim(inner);
    var quoted := "\"" + inner + "\"";
    assert StripPrefix(quoted, "\"") == Some(inner + "\"") by { assert quoted[1..] == inner + "\""; }
    assert StripSuffix(inner + "\"", '"') == Some(inner) by { assert (inner + "\"")[..|inner|] == inner; }
    InnerName(d);
  }

  lemma {:induction false} ScanDeps(s: Scan, deps: seq<DepRef>)
    requires s.inDeps && forall d <- deps :: WellFormedDep(d)
    ensures ScanLines(s, DepLines(deps)) == Ok(s.(deps := s.deps + DepNames(deps)))
    decreases deps
  {
    if deps == [] {
      assert s.deps + DepNames(deps) == s.deps;
    } else {
      var line := DepLines(deps)[0];
      DepLineName(deps[0]);
      assert DepLines(deps)[1..] == DepLines(deps[1..]);
      var t := s.(deps := s.deps + {deps[0].name});
      assert ScanLine(s, line) == Ok(t);
      ScanDeps(t, deps[1..]);
      assert t.deps + DepNames(deps[1..]) == s.deps + DepNames(deps) by {
        forall i | 0 < i < |deps| ensures deps[i].name in DepNames(deps[1..]) {
          assert deps[1..][i - 1] == deps[i];
        }
      }
    }
  }

  lemma ScanDepSection(s: Scan, deps: seq<DepRef>)
    requires !s.inDeps && s.deps == {} && forall d <- deps :: WellFormedDep(d)
    ensures ScanLines(s, DepSection(deps)) == Ok(s.(deps := DepNames(deps)))
  {
    if deps == [] {
      assert DepNames(deps) == {};
    } else {
      var open, close := "dependencies = [", "]";
      var s1 := s.(inDeps := true);
      assert ScanLine(s, open) == Ok(s1) by {
        assert open[|open| - 1] == '[' && TrimEnd(open) == open && open[0] == 'd';
        assert ("name" + " = \"")[0] == 'n';
      }
      ScanOne(s, open);
      ScanConcat(s, [open], DepLines(deps));
      ScanDeps(s1, deps);
      var s2 := s1.(deps := DepNames(deps));
      assert s1.deps + DepNames(deps) == DepNames(deps);
      ScanConcat(s, [open] + DepLines(deps), [close]);
      assert ScanLine(s2, close) == Ok(s2.(inDeps := false)) by {
        assert TrimEnd(close) == close && TrimStart(close) == close && |close| == 1;
      }
      ScanOne(s2, close);
    }
  }

  /** Reading one printed block leaves exactly that block in the accumulators. */
  lemma ScanBlock(s: Scan, b: Block)
    requires WellFormed(b)
    ensures ScanLines(s, BlockLines(b))
         == Ok(Scan(Flush(s).packages, Some(b.name), IdentityLines(b), DepNames(b.deps), false))
  {
    var head, named := "[[package]]", "name = \"" + b.name + "\"";
    var s1 := Flush(s).(inDeps := false);
    assert ScanLine(s, head) == Ok(s1) by { assert head[|head| - 1] == ']' && TrimEnd(head) == head; }
    ScanOne(s, head);
    ScanName(s1, b.name);
    var s2 := s1.(name := Some(b.name));
    ScanOne(s1, named);
    ScanConcat(s, [head], [named]);
    assert [head] + [named] == [head, named];
    ScanIdentity(s2, b);
    assert s2.meta + IdentityLines(b) == IdentityLines(b);
    ScanConcat(s, [head, named], IdentityLines(b));
    var s3 := s2.(meta := IdentityLines(b));
    ScanDepSection(s3, b.deps);
    ScanConcat(s, [head, named] + IdentityLines(b), DepSection(b.deps));
    var s4 := s3.(deps := DepNames(b.deps));
    assert ScanLine(s4, "") == Ok(s4);
    ScanOne(s4, "");
    ScanConcat(s, [head, named] + IdentityLines(b) + DepSection(b.deps), [""]);
  }

  /** The identity lines of a block in the order the reader stores them. */
  function StoredIdentity(b: Block): seq<string> {
    Field("checksum", b.checksum) + Field("source", b.source) + Field("version", b.version)
  }

  lemma FieldsApart(k: string, v: Option<string>, l: string, w: Option<string>)
    requires k != "" && l != "" && k[0] > l[0]
    ensures Above(Leq, Field(k, v), Field(l, w))
  {}

  lemma SortedFields(b: Block)
    ensures Sort(Leq, IdentityLines(b)) == StoredIdentity(b)
  {
    FieldsApart("version", b.version, "source", b.source);
    FieldsApart("version", b.version, "checksum", b.checksum);
    FieldsApart("source", b.source, "checksum", b.checksum);
    SortThree(Leq, Field("version", b.version), Field("source", b.source), Field("checksum", b.checksum));
  }

  /** Identity lines in any order are stored in one. */
  lemma SortedIdentity(b: Block, lines: seq<string>)
    requires multiset(lines) == multiset(IdentityLines(b))
    ensures Sort(Leq, lines) == StoredIdentity(b)
  {
    LeqIsOrder();
    SortSorts(Leq, lines);
    SortSorts(Leq, IdentityLines(b));
    OrderIsUnique(Leq, Sort(Leq, lines), Sort(Leq, IdentityLines(b)));
    SortedFields(b);
  }

  /** The stored identity of one block. */
  function BlockMeta(b: Block): string {
    Join(StoredIdentity(b), "\n") + "\n"
  }

  function Names(blocks: seq<Block>): set<string> {
    set i | 0 <= i < |blocks| :: blocks[i].name
  }

  /** The identities of the blocks named `n`, concatenated in block order. */
  function Metas(blocks: seq<Block>, n: string): string {
    if blocks == [] then ""
    else
      var front, last := blocks[..|blocks| - 1], blocks[|blocks| - 1];
      Metas(front, n) + if last.name == n then BlockMeta(last) else ""
  }

  /** The union of the dependency names of the blocks named `n`. */
  function DepsOf(blocks: seq<Block>, n: string): set<string> {
    if blocks == [] then {}
    else
      var front, last := blocks[..|blocks| - 1], blocks[|blocks| - 1];
      DepsOf(front, n) + if last.name == n then DepNames(last.deps) else {}
  }

  function Entry(blocks: seq<Block>, n: string): LockPackage {
    LockPackage(Metas(blocks, n), DepsOf(blocks, n))
  }

  /** What a list of blocks denotes. */
  function Denoted(blocks: seq<Block>): Lock {
    map n | n in Names(blocks) :: Entry(blocks, n)
  }

  lemma MetasAbsent(blocks: seq<Block>, n: string)
    requires n !in Names(blocks)
    ensures Metas(blocks, n) == "" && DepsOf(blocks, n) == {}
  {
    if blocks != [] {
      var front := blocks[..|blocks| - 1];
      forall i | 0 <= i < |front| ensures front[i].name != n {
        assert blocks[i].name in Names(blocks);
      }
      assert blocks[|blocks| - 1].name in Names(blocks);
      MetasAbsent(front, n);
    }
  }

  lemma NamesSnoc(front: seq<Block>, last: Block)
    ensures Names(front + [last]) == Names(front) + {last.name}
  {
    var blocks := front + [last];
    assert blocks[|front|] == last;
    forall i | 0 <= i < |front| ensures front[i].name in Names(blocks) { assert blocks[i] == front[i]; }
  }

  lemma EntryAbsent(front: seq<Block>, n: string)
    ensures (if n in Denoted(front) then Denoted(front)[n] else LockPackage("", {})) == Entry(front, n)
  {
    if n !in Names(front) { MetasAbsent(front, n); }
  }

  lemma EntryOther(front: seq<Block>, last: Block, n: string)
    requires n != last.name
    ensures Entry(front + [last], n) == Entry(front, n)
  {
    assert (front + [last])[..|front|] == front;
    assert Metas(front, n) + "" == Metas(front, n) && DepsOf(front, n) + {} == DepsOf(front, n);
  }

  lemma EntrySnoc(front: seq<Block>, last: Block, stored: string)
    requires stored == Join(StoredIdentity(last), "\n")
    ensures Entry(front + [last], last.name)
         == LockPackage(Metas(front, last.name) + stored + "\n", DepsOf(front, last.name) + DepNames(last.deps))
  {
    assert (front + [last])[..|front|] == front;
    var had := Metas(front, last.name);
    assert had + stored + "\n" == had + (stored + "\n");
  }

  /** Folding one more block into the packages is denoting one more block. */
  lemma DenotedSnoc(front: seq<Block>, last: Block)
    ensures Flush(Scan(Denoted(front), Some(last.name), IdentityLines(last), DepNames(last.deps), false)).packages
         == Denoted(front + [last])
  {
    var now := Entry(front + [last], last.name);
    assert Flush(Scan(Denoted(front), Some(last.name), IdentityLines(last), DepNames(last.deps), false)).packages
        == Denoted(front)[last.name := now] by {
      EntryAbsent(front, last.name);
      SortedFields(last);
      EntrySnoc(front, last, Join(StoredIdentity(last), "\n"));
    }
    NamesSnoc(front, last);
    forall m | m in Names(front) && m != last.name ensures Entry(front + [last], m) == Entry(front, m) {
      EntryOther(front, last, m);
    }
    MapUpdate(Denoted(front), Denoted(front + [last]), last.name, now);
  }

  lemma MapUpdate<K, V>(m: map<K, V>, m': map<K, V>, k: K, v: V)
    requires m'.Keys == m.Keys + {k} && m'[k] == v
    requires forall x :: x in m && x != k ==> m'[x] == m[x]
    ensures m' == m[k := v]
  {}

  lemma {:induction false} BlocksLinesSnoc(front: seq<Block>, last: Block)
    ensures BlocksLines(front + [last]) == BlocksLines(front) + BlockLines(last)
  {
    var blocks := front + [last];
    if front == [] {
      assert blocks[1..] == [] && BlockLines(last) + [] == BlockLines(last);
    } else {
      assert blocks[1..] == front[1..] + [last];
      BlocksLinesSnoc(front[1..], last);
    }
  }

  /** Reading the lines of the blocks gives what they denote. */
  ghost predicate ReadsTo(s: Scan, blocks: seq<Block>) {
    var r := ScanLines(s, BlocksLines(blocks));
    r.Ok? && Flush(r.value).packages == Denoted(blocks)
  }

  /** One more block after those already read. */
  lemma ScanOneMore(s: Scan, front: seq<Block>, last: Block)
    requires WellFormed(last) && ReadsTo(s, front)
    ensures ReadsTo(s, front + [last])
  {
    BlocksLinesSnoc(front, last);
    ScanConcat(s, BlocksLines(front), BlockLines(last));
    ScanBlock(ScanLines(s, BlocksLines(front)).value, last);
    DenotedSnoc(front, last);
  }

  lemma ScanNone(s: Scan)
    requires s.packages == map[] && s.name.None?
    ensures ReadsTo(s, [])
  {}

  lemma FrontAndLast<T>(s: seq<T>)
    requires s != []
    ensures s[..|s| - 1] + [s[|s| - 1]] == s
  {}

  lemma {:induction false} ScanBlocks(s: Scan, blocks: seq<Block>)
    requires s.packages == map[] && s.name.None?
    requires forall b <- blocks :: WellFormed(b)
    ensures ReadsTo(s, blocks)
    decreases blocks
  {
    if blocks == [] {
      ScanNone(s);
    } else {
      ScanBlocks(s, blocks[..|blocks| - 1]);
      ScanOneMore(s, blocks[..|blocks| - 1], blocks[|blocks| - 1]);
      FrontAndLast(blocks);
    }
  }

  predicate CleanLine(line: string) {
    '\n' !in line && DropCr(line) == line
  }

  predicate Clean(ls: seq<string>) {
    forall i :: 0 <= i < |ls| ==> CleanLine(ls[i])
  }

  lemma CleanField(key: string, value: Option<string>)
    requires OneLine(key) && (value.Some? ==> OneLine(value.value))
    ensures Clean(Field(key, value))
  {
    if value.Some? {
      var l := key + " = \"" + value.value + "\"";
      assert l[|l| - 1] == '"';
    }
  }

  lemma CleanDeps(deps: seq<DepRef>)
    requires forall d <- deps :: WellFormedDep(d)
    ensures Clean(DepSection(deps))
  {
    forall i | 0 <= i < |deps| ensures CleanLine(DepLines(deps)[i]) {
      var l := DepLine(deps[i]);
      CleanInner(deps[i]);
      assert l[|l| - 1] == ',';
    }
    assert CleanLine("dependencies = [") && CleanLine("]");
  }

  lemma CleanBlock(b: Block)
    requires WellFormed(b)
    ensures Clean(BlockLines(b))
  {
    CleanField("name", Some(b.name));
    CleanField("version", b.version);
    CleanField("source", b.source);
    CleanField("checksum", b.checksum);
    CleanDeps(b.deps);
    var named := "name = \"" + b.name + "\"";
    assert Field("name", Some(b.name))[0] == named;
    assert CleanLine("[[package]]") && CleanLine("");
    assert Clean(IdentityLines(b));
    assert Clean(["[[package]]", named]);
    assert Clean(["[[package]]", named] + IdentityLines(b));
  }

  lemma CleanInner(d: DepRef)
    requires WellFormedDep(d)
    ensures '\n' !in Inner(d)
  {
    assert IsWhitespace('\n');
  }

  lemma {:induction false} CleanBlocks(blocks: seq<Block>)
    requires forall b <- blocks :: WellFormed(b)
    ensures Clean(BlocksLines(blocks))
  {
    if blocks != [] {
      CleanBlock(blocks[0]);
      CleanBlocks(blocks[1..]);
    }
  }

  lemma ScanComment(s: Scan, line: string)
    requires !s.inDeps && Comment(line)
    ensures ScanLine(s, line) == Ok(s) && CleanLine(line)
  {
    assert TrimEnd(line) == line;
    assert ("name" + " = \"")[0] == 'n' && "version"[0] == 'v' && "source"[0] == 's' && "checksum"[0] == 'c';
    assert IsWhitespace('\r');
  }

  lemma {:induction false} ScanComments(s: Scan, comments: seq<string>)
    requires !s.inDeps && forall c <- comments :: Comment(c)
    ensures ScanLines(s, comments) == Ok(s) && Clean(comments)
  {
    if comments != [] {
      ScanComment(s, comments[0]);
      ScanComments(s, comments[1..]);
    }
  }

  lemma ScanVersion(s: Scan, format: nat)
    requires !s.inDeps
    ensures ScanLines(s, [VersionLine(format), ""]) == Ok(s.(meta := s.meta + [VersionLine(format)]))
    ensures CleanLine(VersionLine(format))
  {
    var v, d := VersionLine(format), Digits(format);
    assert v[|v| - 1] == d[|d| - 1] && v[0] == 'v' && "version" <= v;
    assert ("name" + " = \"")[0] == 'n';
    assert TrimEnd(v) == v;
    var t := s.(meta := s.meta + [v]);
    assert ScanLine(s, v) == Ok(t) && ScanLine(t, "") == Ok(t);
    assert [v, ""][1..] == [""];
    ScanOne(t, "");
    assert forall c <- d :: '0' <= c <= '9';
  }

  lemma PrintedLines(comments: seq<string>, format: nat, blocks: seq<Block>)
    requires forall c <- comments :: Comment(c)
    requires forall b <- blocks :: WellFormed(b)
    ensures Lines(Printed(comments, format, blocks)) == comments + [VersionLine(format), ""] + BlocksLines(blocks)
  {
    ScanComments(START, comments);
    ScanVersion(START, format);
    CleanBlocks(blocks);
    var lines := comments + [VersionLine(format), ""] + BlocksLines(blocks);
    assert Clean([VersionLine(format), ""]) && Clean(lines);
    LinesUnlines(lines);
  }

  /** Printing any list of well-formed blocks and reading the text back gives what the list denotes;
      the version header reaches no package. */
  lemma RoundTrip(comments: seq<string>, format: nat, blocks: seq<Block>)
    requires forall c <- comments :: Comment(c)
    requires forall b <- blocks :: WellFormed(b)
    ensures Parsed(Printed(comments, format, blocks)) == if blocks == [] then Err else Ok(Denoted(blocks))
  {
    var version := [VersionLine(format), ""];
    PrintedLines(comments, format, blocks);
    ScanComments(START, comments);
    ScanVersion(START, format);
    ScanConcat(START, comments, version);
    ScanConcat(START, comments + version, BlocksLines(blocks));
    ScanBlocks(START.(meta := START.meta + [VersionLine(format)]), blocks);
    if blocks != [] {
      assert blocks[0].name in Denoted(blocks);
    }
  }

  // ---- Which edges the reader sees ----

  /** The same packages in the same order, with other dependencies. */
  predicate SameButDeps(a: seq<Block>, b: seq<Block>) {
    |a| == |b| && forall i :: 0 <= i < |a| ==> a[i].(deps := b[i].deps) == b[i]
  }

  lemma {:induction false} SameMetas(a: seq<Block>, b: seq<Block>, n: string)
    requires SameButDeps(a, b)
    ensures Metas(a, n) == Metas(b, n)
  {
    if a != [] {
      var i := |a| - 1;
      SameMetas(a[..i], b[..i], n);
      assert a[i].(deps := b[i].deps) == b[i];
      assert StoredIdentity(a[i]) == StoredIdentity(b[i]);
    }
  }

  lemma SameNames(a: seq<Block>, b: seq<Block>)
    requires SameButDeps(a, b)
    ensures Names(a) == Names(b)
  {
    forall i | 0 <= i < |a| ensures a[i].name == b[i].name { assert a[i].(deps := b[i].deps) == b[i]; }
  }

  /** Two lock files that differ only in dependency references read the same if and only if, for every
      name, all blocks of that name together refer to the same names. */
  lemma EdgesReadExactly(comments: seq<string>, format: nat, a: seq<Block>, b: seq<Block>)
    requires forall c <- comments :: Comment(c)
    requires forall x <- a :: WellFormed(x)
    requires forall x <- b :: WellFormed(x)
    requires SameButDeps(a, b)
    ensures Parsed(Printed(comments, format, a)) == Parsed(Printed(comments, format, b))
       <==> forall n <- Names(a) :: DepsOf(a, n) == DepsOf(b, n)
  {
    RoundTrip(comments, format, a);
    RoundTrip(comments, format, b);
    SameNames(a, b);
    forall n <- Names(a) ensures Denoted(a)[n] == Denoted(b)[n] <==> DepsOf(a, n) == DepsOf(b, n) {
      SameMetas(a, b, n);
    }
    assert Denoted(a) == Denoted(b) <==> forall n <- Names(a) :: Denoted(a)[n] == Denoted(b)[n];
  }

  /** The same block with every dependency's version left out. */
  function Unversioned(b: Block): Block {
    b.(deps := seq(|b.deps|, i requires 0 <= i < |b.deps| => b.deps[i].(version := None)))
  }

  predicate SameButVersions(a: seq<Block>, b: seq<Block>) {
    |a| == |b| && forall i :: 0 <= i < |a| ==> Unversioned(a[i]) == Unversioned(b[i])
  }

  lemma UnversionedDeps(a: Block, b: Block)
    requires Unversioned(a) == Unversioned(b)
    ensures a.(deps := b.deps) == b && DepNames(a.deps) == DepNames(b.deps)
  {
    assert |a.deps| == |Unversioned(a).deps| == |Unversioned(b).deps| == |b.deps|;
    forall i | 0 <= i < |a.deps| ensures a.deps[i].name == b.deps[i].name {
      assert Unversioned(a).deps[i] == Unversioned(b).deps[i];
    }
  }

  lemma {:induction false} SameDepsOf(a: seq<Block>, b: seq<Block>, n: string)
    requires SameButVersions(a, b)
    ensures DepsOf(a, n) == DepsOf(b, n)
  {
    if a != [] {
      var i := |a| - 1;
      SameDepsOf(a[..i], b[..i], n);
      assert Unversioned(a[i]) == Unversioned(b[i]);
      UnversionedDeps(a[i], b[i]);
    }
  }

  /** The reader keeps only the name of a dependency reference: pointing an edge at another version
      of a package that the lock already holds is invisible to everything built on it. */
  lemma DepVersionsAreForgotten(comments: seq<string>, format: nat, a: seq<Block>, b: seq<Block>)
    requires forall c <- comments :: Comment(c)
    requires forall x <- a :: WellFormed(x)
    requires forall x <- b :: WellFormed(x)
    requires SameButVersions(a, b)
    ensures Parsed(Printed(comments, format, a)) == Parsed(Printed(comments, format, b))
  {
    forall i | 0 <= i < |a| ensures a[i].(deps := b[i].deps) == b[i] {
      assert Unversioned(a[i]) == Unversioned(b[i]);
      UnversionedDeps(a[i], b[i]);
    }
    forall n <- Names(a) ensures DepsOf(a, n) == DepsOf(b, n) { SameDepsOf(a, b, n); }
    EdgesReadExactly(comments, format, a, b);
  }

  predicate DistinctNames(blocks: seq<Block>) {
    forall i, j :: 0 <= i < j < |blocks| ==> blocks[i].name != blocks[j].name
  }

  /** With one block per name, a name's dependencies are those of its block. */
  lemma {:induction false} DepsOfBlock(blocks: seq<Block>, i: nat)
    requires DistinctNames(blocks) && i < |blocks|
    ensures DepsOf(blocks, blocks[i].name) == DepNames(blocks[i].deps)
  {
    var front, last := blocks[..|blocks| - 1], blocks[|blocks| - 1];
    if i < |front| {
      DepsOfBlock(front, i);
    } else {
      assert last.name !in Names(front);
      MetasAbsent(front, last.name);
    }
  }
}
