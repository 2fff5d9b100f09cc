/** What the lock reader makes of text it does not expect: spaces at line ends, a missing last newline, and
    blocks it cannot read. */
module LockText {
  import opened Text
  import opened CargoLock

  // ---- The pieces of a line ----

  ghost predicate AllWhite(s: string) {
    forall i :: 0 <= i < |s| ==> IsWhitespace(s[i])
  }

  /** Among the ASCII characters: tab, line feed, vertical tab, form feed, carriage return and space. */
  lemma AsciiWhitespace(c: char)
    requires c as int < 128
    ensures IsWhitespace(c) <==> c as int in {9, 10, 11, 12, 13, 32}
  {}

  /** Trimming the end cuts off whitespace, and all of it. */
  lemma {:induction false} TrimEndIs(s: string)
    ensures var t := TrimEnd(s);
      t <= s && AllWhite(s[|t|..]) && (t != "" ==> !IsWhitespace(t[|t| - 1]))
  {
    if s != "" && IsWhitespace(s[|s| - 1]) {
      var front := s[..|s| - 1];
      TrimEndIs(front);
      var n := |TrimEnd(s)|;
      forall i | 0 <= i < |s[n..]| ensures IsWhitespace(s[n..][i]) {
        if n + i < |front| { assert front[n..][i] == s[n..][i]; }
      }
    }
  }

  lemma {:induction false} TrimStartIs(s: string)
    ensures var t := TrimStart(s);
      |t| <= |s| && t == s[|s| - |t|..] && AllWhite(s[..|s| - |t|]) && (t != "" ==> !IsWhitespace(t[0]))
  {
    if s != "" && IsWhitespace(s[0]) {
      TrimStartIs(s[1..]);
      var k := |s| - |TrimStart(s)|;
      assert AllWhite(s[1..][..k - 1]);
      forall i | 0 <= i < |s[..k]| ensures IsWhitespace(s[..k][i]) {
        if i > 0 { assert s[1..][..k - 1][i - 1] == s[..k][i]; }
      }
    }
  }

  lemma {:induction false} CommasAreCut(s: string, c: char)
    ensures var t := TrimEndMatches(s, c);
      t <= s && (forall i :: |t| <= i < |s| ==> s[i] == c) && (t != "" ==> t[|t| - 1] != c)
  {
    if s != "" && s[|s| - 1] == c { CommasAreCut(s[..|s| - 1], c); }
  }

  lemma {:induction false} WordIs(s: string)
    ensures var w := Word(s);
      w <= s && (forall i :: 0 <= i < |w| ==> !IsWhitespace(w[i])) && (|w| < |s| ==> IsWhitespace(s[|w|]))
  {
    if s != "" && !IsWhitespace(s[0]) {
      WordIs(s[1..]);
      assert s == [s[0]] + s[1..];
    }
  }

  ghost predicate IsFirstWord(s: string, i: nat, j: nat) {
    && i < j <= |s| && AllWhite(s[..i]) && (j < |s| ==> IsWhitespace(s[j]))
    && (forall k :: i <= k < j ==> !IsWhitespace(s[k]))
  }

  /** The first word: after leading whitespace, up to the next; a text of nothing but whitespace is its own. */
  lemma FirstWordIs(s: string)
    ensures AllWhite(s) ==> FirstWord(s) == s
    ensures !AllWhite(s) ==> exists i: nat, j: nat :: IsFirstWord(s, i, j) && FirstWord(s) == s[i..j]
  {
    TrimStartIs(s);
    var t := TrimStart(s);
    WordIs(t);
    var i := |s| - |t|;
    var j := i + |Word(t)|;
    if t == "" {
      assert s[..i] == s;
    } else {
      assert !IsWhitespace(s[i]) && Word(t) == s[i..j];
      assert IsFirstWord(s, i, j);
    }
  }

  predicate InQuotes(t: string) {
    |t| >= 2 && t[0] == '"' && t[|t| - 1] == '"'
  }

  /** A dependency is read exactly from a line that is in quotes, whitespace around it and commas after it
      aside, and its name is the first word inside. */
  lemma DepNameExactly(line: string)
    ensures var t := TrimEndMatches(Trim(line), ',');
      && (DepName(line).Some? <==> InQuotes(t))
      && (InQuotes(t) ==> DepName(line).value == FirstWord(t[1..|t| - 1]))
  {
    var t := TrimEndMatches(Trim(line), ',');
    if InQuotes(t) { assert t[1..][..|t| - 2] == t[1..|t| - 1]; }
  }

  // ---- Line ends ----

  lemma {:induction false} WhiteIsTrimmed(s: string, white: string)
    requires AllWhite(white)
    ensures TrimEnd(s + white) == TrimEnd(s)
  {
    if white == "" {
      assert s + white == s;
    } else {
      var front := white[..|white| - 1];
      assert (s + white)[..|s + white| - 1] == s + front;
      WhiteIsTrimmed(s, front);
    }
  }

  lemma CrIsTrimmed(s: string)
    ensures TrimEnd(DropCr(s)) == TrimEnd(s)
  {
    if DropCr(s) != s {
      assert s == DropCr(s) + "\r";
      WhiteIsTrimmed(DropCr(s), "\r");
    }
  }

  /** Lines that agree up to whitespace at their ends. */
  ghost predicate AlikeLines(a: seq<string>, b: seq<string>) {
    |a| == |b| && forall i :: 0 <= i < |a| ==> TrimEnd(a[i]) == TrimEnd(b[i])
  }

  lemma {:induction false} AlikeScans(s: Scan, a: seq<string>, b: seq<string>)
    requires AlikeLines(a, b)
    ensures ScanLines(s, a) == ScanLines(s, b)
    decreases a
  {
    if a != [] {
      assert TrimEnd(a[0]) == TrimEnd(b[0]);
      var r := ScanLine(s, a[0]);
      if r.Ok? { AlikeScans(r.value, a[1..], b[1..]); }
    }
  }

  lemma ScanOfText(s: Scan, ls: seq<string>)
    requires forall l <- ls :: '\n' !in l
    ensures ScanLines(s, Lines(Unlines(ls))) == ScanLines(s, ls)
  {
    SplitUnlines(ls);
    var read := Lines(Unlines(ls));
    forall i | 0 <= i < |ls| ensures TrimEnd(read[i]) == TrimEnd(ls[i]) { CrIsTrimmed(ls[i]); }
    AlikeScans(s, read, ls);
  }

  /** Whitespace at the ends of lines, carriage returns included, makes no difference. */
  lemma LineEndsAreIgnored(a: seq<string>, b: seq<string>)
    requires AlikeLines(a, b) && (forall l <- a :: '\n' !in l) && (forall l <- b :: '\n' !in l)
    ensures Parsed(Unlines(a)) == Parsed(Unlines(b))
  {
    ScanOfText(START, a);
    ScanOfText(START, b);
    AlikeScans(START, a, b);
  }

  lemma {:induction false} SplitLastLine(s: string)
    ensures var parts := Split(s, '\n'); Split(s + "\n", '\n') == parts + [""]
  {
    if s == "" {
      assert s + "\n" == "\n" && "\n"[1..] == "";
    } else {
      SplitLastLine(s[1..]);
      assert (s + "\n")[1..] == s[1..] + "\n";
    }
  }

  /** Nor does a missing newline at the end. */
  lemma LastNewlineIsOptional(text: string)
    requires text != "" && text[|text| - 1] != '\n'
    ensures Parsed(text + "\n") == Parsed(text)
  {
    var parts := Split(text, '\n');
    SplitLastLine(text);
    LastPartIsText(text);
    var a, b := Lines(text + "\n"), Lines(text);
    CrIsTrimmed(parts[|parts| - 1]);
    forall i | 0 <= i < |a| ensures TrimEnd(a[i]) == TrimEnd(b[i]) {}
    AlikeScans(START, a, b);
  }

  lemma {:induction false} LastPartIsText(s: string)
    requires s != "" && s[|s| - 1] != '\n'
    ensures var parts := Split(s, '\n'); parts[|parts| - 1] != ""
  {
    if |s| > 1 { LastPartIsText(s[1..]); } else { assert s[1..] == ""; }
  }

  /** Among the dependencies, whitespace before a line makes no difference either, a block's opening aside. */
  lemma DependencyIndentIsIgnored(s: Scan, a: string, b: string)
    requires s.inDeps && Trim(a) == Trim(b) && TrimEnd(a) != "[[package]]" && TrimEnd(b) != "[[package]]"
    ensures ScanLine(s, a) == ScanLine(s, b)
  {
    TrimOfTrimEnd(a);
    TrimOfTrimEnd(b);
    DepNameExactly(TrimEnd(a));
    DepNameExactly(TrimEnd(b));
  }

  // ---- Blocks it cannot read ----

  function NameLine(name: string): string {
    "name = \"" + name + "\""
  }

  lemma BadLineIsError(front: seq<string>, block: seq<string>, rest: seq<string>)
    requires forall l <- front + block + rest :: '\n' !in l
    requires ScanLines(START, front).Ok? ==> ScanLines(ScanLines(START, front).value, block).Err?
    ensures Parsed(Unlines(front + block + rest)).Err?
  {
    ScanOfText(START, front + block + rest);
    ScanConcat(START, front + block, rest);
    ScanConcat(START, front, block);
  }

  /** A block with two names is an error, whatever comes before and after it. */
  lemma TwoNamesAreAnError(front: seq<string>, a: string, b: string, rest: seq<string>)
    requires forall l <- front + ["[[package]]", NameLine(a), NameLine(b)] + rest :: '\n' !in l
    ensures Parsed(Unlines(front + ["[[package]]", NameLine(a), NameLine(b)] + rest)).Err?
  {
    if ScanLines(START, front).Ok? { TwoNamesFail(ScanLines(START, front).value, a, b); }
    BadLineIsError(front, ["[[package]]", NameLine(a), NameLine(b)], rest);
  }

  lemma TwoNamesFail(s: Scan, a: string, b: string)
    ensures ScanLines(s, ["[[package]]", NameLine(a), NameLine(b)]).Err?
  {
    var t := Flush(s).(inDeps := false);
    PackageOpens(s);
    ScanName(t, a);
    QuotedLine("name", b);
    var u := t.(name := Some(a));
    assert ScanLine(t, NameLine(a)) == Ok(u) && ScanLine(u, NameLine(b)).Err?;
    ThreeLines(s, "[[package]]", t, NameLine(a), u, NameLine(b));
  }

  lemma ThreeLines(s: Scan, a: string, t: Scan, b: string, u: Scan, c: string)
    requires ScanLine(s, a) == Ok(t) && ScanLine(t, b) == Ok(u) && ScanLine(u, c).Err?
    ensures ScanLines(s, [a, b, c]).Err?
  {
    assert [a, b, c] == [a] + [b] + [c];
    ScanConcat(s, [a] + [b], [c]);
    ScanConcat(s, [a], [b]);
    ScanOne(s, a);
    ScanOne(t, b);
    ScanOne(u, c);
  }

  lemma PackageOpens(s: Scan)
    ensures ScanLine(s, "[[package]]") == Ok(Flush(s).(inDeps := false)) && Flush(s).name == None
  {
    assert TrimEnd("[[package]]") == "[[package]]";
  }

  /** So is a line among the dependencies that neither is in quotes nor ends them. */
  lemma UnquotedDependencyIsAnError(front: seq<string>, line: string, rest: seq<string>)
    requires forall l <- front + ["[[package]]", "dependencies = [", line] + rest :: '\n' !in l
    requires !InQuotes(TrimEndMatches(Trim(line), ',')) && Trim(TrimEnd(line)) != "]" && TrimEnd(line) != "[[package]]"
    ensures Parsed(Unlines(front + ["[[package]]", "dependencies = [", line] + rest)).Err?
  {
    if ScanLines(START, front).Ok? { UnquotedFails(ScanLines(START, front).value, line); }
    BadLineIsError(front, ["[[package]]", "dependencies = [", line], rest);
  }

  lemma UnquotedFails(s: Scan, line: string)
    requires !InQuotes(TrimEndMatches(Trim(line), ',')) && Trim(TrimEnd(line)) != "]" && TrimEnd(line) != "[[package]]"
    ensures ScanLines(s, ["[[package]]", "dependencies = [", line]).Err?
  {
    PackageOpens(s);
    var t := Flush(s).(inDeps := false);
    DependenciesOpen(t);
    TrimOfTrimEnd(line);
    DepNameExactly(TrimEnd(line));
    ThreeLines(s, "[[package]]", t, "dependencies = [", t.(inDeps := true), line);
  }

  lemma DependenciesOpen(t: Scan)
    requires !t.inDeps
    ensures ScanLine(t, "dependencies = [") == Ok(t.(inDeps := true))
  {
    var line := "dependencies = [";
    assert TrimEnd(line) == line && line[0] == 'd';
    assert ("name" + " = \"")[0] == 'n' && "version"[0] == 'v' && "source"[0] == 's' && "checksum"[0] == 'c';
  }

  /** Trimming the end first makes no difference to trimming both. */
  lemma TrimOfTrimEnd(s: string)
    ensures Trim(TrimEnd(s)) == Trim(s)
  {
    TrimEndIs(s);
    var t := TrimEnd(s);
    assert s == t + s[|t|..];
    StartThenEnd(t, s[|t|..]);
  }

  lemma {:induction false} StartThenEnd(t: string, white: string)
    requires AllWhite(white)
    ensures Trim(t + white) == Trim(t)
  {
    if t == "" {
      assert t + white == white;
      AllWhiteTrims(white);
    } else if IsWhitespace(t[0]) {
      assert (t + white)[1..] == t[1..] + white;
      StartThenEnd(t[1..], white);
    } else {
      WhiteIsTrimmed(t, white);
    }
  }

  lemma {:induction false} AllWhiteTrims(white: string)
    requires AllWhite(white)
    ensures TrimStart(white) == ""
  {
    if white != "" { AllWhiteTrims(white[1..]); }
  }
}
