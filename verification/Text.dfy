/** String operations of the Rust standard library that the modelled code relies on, with the
    order and splitting facts the other modules need. Strings are compared by code point, which
    is also the byte order of their UTF-8 encodings. */
module Text {

  datatype Option<+T> = None | Some(value: T)

  datatype Result<+T> = Ok(value: T) | Err

  predicate StartsWith(s: string, prefix: string) {
    prefix <= s
  }

  /** `a <= b` in the lexicographic order. */
  predicate Leq(a: string, b: string) {
    a == [] || (b != [] && (a[0] < b[0] || (a[0] == b[0] && Leq(a[1..], b[1..]))))
  }

  /** `a < b` in the lexicographic order. */
  predicate Less(a: string, b: string) {
    Leq(a, b) && a != b
  }

  lemma LeqReflexive(a: string)
    ensures Leq(a, a)
  {}

  lemma LeqTotal(a: string, b: string)
    ensures Leq(a, b) || Leq(b, a)
  {}

  lemma {:induction false} LeqAntisymmetric(a: string, b: string)
    requires Leq(a, b) && Leq(b, a)
    ensures a == b
  {
    if a != [] {
      LeqAntisymmetric(a[1..], b[1..]);
      assert a == [a[0]] + a[1..] && b == [b[0]] + b[1..];
    }
  }

  lemma {:induction false} LeqTransitive(a: string, b: string, c: string)
    requires Leq(a, b) && Leq(b, c)
    ensures Leq(a, c)
  {
    if a != [] && a[0] == b[0] && b[0] == c[0] {
      LeqTransitive(a[1..], b[1..], c[1..]);
    }
  }

  /** Between a prefix and one of its extensions there are only extensions of that prefix. */
  lemma {:induction false} ExtensionsAreContiguous(prefix: string, a: string, b: string)
    requires Leq(prefix, a) && Leq(a, b) && StartsWith(b, prefix)
    ensures StartsWith(a, prefix)
  {
    if prefix != [] {
      assert b[0] == prefix[0] && prefix[1..] <= b[1..];
      ExtensionsAreContiguous(prefix[1..], a[1..], b[1..]);
      assert a == [a[0]] + a[1..] && prefix == [prefix[0]] + prefix[1..];
    }
  }

  /** A prefix is below every string that extends it. */
  lemma {:induction false} PrefixIsLeq(prefix: string, s: string)
    requires StartsWith(s, prefix)
    ensures Leq(prefix, s)
  {
    if prefix != [] {
      PrefixIsLeq(prefix[1..], s[1..]);
    }
  }

  /** `parts.join(sep)` */
  function Join(parts: seq<string>, sep: string): string {
    if parts == [] then "" else if |parts| == 1 then parts[0] else parts[0] + sep + Join(parts[1..], sep)
  }

  /** `s.split(c)`: the maximal pieces between occurrences of `c`; never empty. */
  function Split(s: string, c: char): (parts: seq<string>)
    ensures |parts| >= 1
    ensures forall p <- parts :: c !in p
  {
    if s == "" then [""]
    else
      var rest := Split(s[1..], c);
      if s[0] == c then [""] + rest else [[s[0]] + rest[0]] + rest[1..]
  }

  lemma {:induction false} JoinSplit(s: string, c: char)
    ensures Join(Split(s, c), [c]) == s
  {
    if s != "" {
      JoinSplit(s[1..], c);
      var rest := Split(s[1..], c);
      if s[0] == c {
        assert ([""] + rest)[1..] == rest;
      } else {
        var parts := [[s[0]] + rest[0]] + rest[1..];
        assert parts[1..] == rest[1..];
        if |rest| > 1 {
          assert Join(parts, [c]) == [s[0]] + rest[0] + [c] + Join(rest[1..], [c]);
        }
      }
    }
  }

  lemma {:induction false} SplitPrefix(a: string, s: string, c: char)
    requires c !in a
    ensures Split(a + [c] + s, c) == [a] + Split(s, c)
  {
    var t := a + [c] + s;
    if a == "" {
      assert t[1..] == s;
    } else {
      assert t[1..] == a[1..] + [c] + s;
      SplitPrefix(a[1..], s, c);
      assert ([a[1..]] + Split(s, c))[1..] == Split(s, c);
      assert [a[0]] + a[1..] == a;
    }
  }

  lemma {:induction false} SplitNone(a: string, c: char)
    requires c !in a
    ensures Split(a, c) == [a]
  {
    if a != "" {
      SplitNone(a[1..], c);
      assert [a[0]] + a[1..] == a;
    }
  }

  lemma {:induction false} SplitJoin(parts: seq<string>, c: char)
    requires parts != [] && forall p <- parts :: c !in p
    ensures Split(Join(parts, [c]), c) == parts
  {
    if |parts| == 1 {
      SplitNone(parts[0], c);
    } else {
      SplitJoin(parts[1..], c);
      SplitPrefix(parts[0], Join(parts[1..], [c]), c);
      assert parts == [parts[0]] + parts[1..];
    }
  }

  predicate AllDigits(s: string) {
    forall i :: 0 <= i < |s| ==> '0' <= s[i] <= '9'
  }

  /** The decimal rendering of a number. */
  function Digits(n: nat): (s: string)
    ensures s != "" && AllDigits(s)
  {
    var last := ['0' + (n % 10) as char];
    if n < 10 then last else Digits(n / 10) + last
  }

  /** The number a string of digits denotes. */
  function Value(s: string): nat
    requires AllDigits(s)
  {
    if s == "" then 0 else Value(s[..|s| - 1]) * 10 + (s[|s| - 1] as int - '0' as int)
  }

  lemma {:induction false} ValueOfDigits(n: nat)
    ensures Value(Digits(n)) == n
  {
    var s := Digits(n);
    if n >= 10 {
      ValueOfDigits(n / 10);
      assert s[..|s| - 1] == Digits(n / 10);
    } else {
      assert s[..|s| - 1] == "";
    }
  }

  /** Unicode White_Space, as `char::is_whitespace` has it. */
  predicate IsWhitespace(c: char) {
    var n := c as int;
    0x09 <= n <= 0x0D || n == 0x20 || n == 0x85 || n == 0xA0 || n == 0x1680 || 0x2000 <= n <= 0x200A
    || n == 0x2028 || n == 0x2029 || n == 0x202F || n == 0x205F || n == 0x3000
  }

  function TrimEnd(s: string): string {
    if s != "" && IsWhitespace(s[|s| - 1]) then TrimEnd(s[..|s| - 1]) else s
  }

  function TrimStart(s: string): string {
    if s != "" && IsWhitespace(s[0]) then TrimStart(s[1..]) else s
  }

  function Trim(s: string): string {
    TrimEnd(TrimStart(s))
  }

  function TrimEndMatches(s: string, c: char): string {
    if s != "" && s[|s| - 1] == c then TrimEndMatches(s[..|s| - 1], c) else s
  }

  function StripPrefix(s: string, prefix: string): Option<string> {
    if prefix <= s then Some(s[|prefix|..]) else None
  }

  function StripSuffix(s: string, c: char): Option<string> {
    if s != "" && s[|s| - 1] == c then Some(s[..|s| - 1]) else None
  }

  /** The longest prefix of `s` without whitespace. */
  function Word(s: string): string {
    if s == "" || IsWhitespace(s[0]) then "" else [s[0]] + Word(s[1..])
  }

  /** `s.split_whitespace().next().unwrap_or(s)` */
  function FirstWord(s: string): string {
    var w := Word(TrimStart(s));
    if w == "" then s else w
  }

  /** `s.lines()`: the pieces ended by `\n` or `\r\n`, plus an unended last piece if not empty. */
  function Lines(s: string): seq<string> {
    var parts := Split(s, '\n');
    var ended := seq(|parts| - 1, i requires 0 <= i < |parts| - 1 => DropCr(parts[i]));
    var last := parts[|parts| - 1];
    if last == "" then ended else ended + [last]
  }

  function DropCr(s: string): string {
    if s != "" && s[|s| - 1] == '\r' then s[..|s| - 1] else s
  }

  /** Every line followed by a newline. */
  function Unlines(ls: seq<string>): string {
    if ls == [] then "" else ls[0] + "\n" + Unlines(ls[1..])
  }

  lemma {:induction false} SplitUnlines(ls: seq<string>)
    requires forall l <- ls :: '\n' !in l
    ensures Split(Unlines(ls), '\n') == ls + [""]
  {
    if ls != [] {
      SplitUnlines(ls[1..]);
      SplitPrefix(ls[0], Unlines(ls[1..]), '\n');
      assert [ls[0]] + (ls[1..] + [""]) == ls + [""];
    }
  }

  lemma LinesUnlines(ls: seq<string>)
    requires forall l <- ls :: '\n' !in l && DropCr(l) == l
    ensures Lines(Unlines(ls)) == ls
  {
    SplitUnlines(ls);
    assert Lines(Unlines(ls)) == ls;
  }
}
