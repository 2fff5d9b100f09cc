/** Numbered-line pagination of a text, with tail reads. */
module Pager {
  import opened Text

  datatype Page = Page(text: string, startLine: nat, endLine: nat, totalLines: nat, truncated: bool)

  predicate EndsWithNewline(content: string) {
    content != "" && content[|content| - 1] == '\n'
  }

  /** The lines of a text; a trailing newline does not open another one. */
  function ContentLines(content: string): (lines: seq<string>)
  {
    var parts := Split(content, '\n');
    if parts[|parts| - 1] == "" && EndsWithNewline(content) then parts[..|parts| - 1] else parts
  }

  const CUT_MARK := "... [truncated]"

  function TruncateLine(line: string, maxChars: nat): string {
    if |line| <= maxChars then line else line[..maxChars] + CUT_MARK
  }

  function StartLine(offset: int, total: nat): (r: nat)
    ensures r >= 1
  {
    if offset < 0 then (if -offset <= total then total + offset else 0) + 1
    else if offset < 1 then 1 else offset
  }

  function Limit(limit: Option<nat>, maxLines: nat): (r: nat)
    ensures r >= 1
  {
    var most := if maxLines < 1 then 1 else maxLines;
    var asked := if limit.Some? then limit.value else maxLines;
    if asked < 1 then 1 else if asked > most then most else asked
  }

  function Numbered(n: nat, line: string, maxChars: nat): string {
    Digits(n) + "|" + TruncateLine(line, maxChars)
  }

  /** Lines `start` to `end` with their gutters. */
  function Window(lines: seq<string>, start: nat, end: nat, maxChars: nat): seq<string>
    requires 1 <= start <= end + 1 && end <= |lines|
  {
    seq(end + 1 - start, i requires 0 <= i < end + 1 - start => Numbered(start + i, lines[start - 1 + i], maxChars))
  }

  /** The last line of a page that starts at `start`. */
  function EndLine(start: nat, limit: nat, total: nat): nat
    requires 1 <= start <= total && limit >= 1
  {
    if start + limit - 1 <= total then start + limit - 1 else total
  }

  /** The page that starts at line `start`; empty when that is past the end. */
  function PageAt(lines: seq<string>, start: nat, limit: nat, maxChars: nat): Page
    requires start >= 1 && limit >= 1
  {
    var total := |lines|;
    if start > total then Page("", start, 0, total, false)
    else
      var end := EndLine(start, limit, total);
      Page(Join(Window(lines, start, end, maxChars), "\n"), start, end, total, end < total)
  }

  function Paged(content: string, offset: int, limit: Option<nat>, maxLines: nat, maxChars: nat): Page {
    var lines := ContentLines(content);
    PageAt(lines, StartLine(offset, |lines|), Limit(limit, maxLines), maxChars)
  }

  method Paginate(content: string, offset: int, limit: Option<nat>, maxLines: nat, maxChars: nat) returns (page: Page)
    ensures page == Paged(content, offset, limit, maxLines, maxChars)
    ensures AsAsked(page, ContentLines(content), offset, limit, maxLines, maxChars)
  {
    PagedAsAsked(content, offset, limit, maxLines, maxChars);
    var lines := ContentLines(content);
    var total := |lines|;
    var start := StartLine(offset, total);
    if total == 0 || start > total {
      return Page("", start, 0, total, false);
    }
    var end := EndLine(start, Limit(limit, maxLines), total);
    var numbered := NumberLines(lines, start, end, maxChars);
    page := Page(Join(numbered, "\n"), start, end, total, end < total);
  }

  method NumberLines(lines: seq<string>, start: nat, end: nat, maxChars: nat) returns (numbered: seq<string>)
    requires 1 <= start <= end + 1 && end <= |lines|
    ensures numbered == Window(lines, start, end, maxChars)
  {
    numbered := [];
    for i := 0 to end + 1 - start
      invariant |numbered| == i && forall k :: 0 <= k < i ==>
        numbered[k] == Numbered(start + k, lines[start - 1 + k], maxChars)
    {
      numbered := numbered + [Numbered(start + i, lines[start - 1 + i], maxChars)];
    }
  }

  // ---- Content and lines ----

  lemma {:induction false} JoinSnoc(parts: seq<string>, sep: string, last: string)
    requires parts != []
    ensures Join(parts + [last], sep) == Join(parts, sep) + sep + last
  {
    var all := parts + [last];
    assert all[1..] == parts[1..] + [last];
    if |parts| > 1 {
      JoinSnoc(parts[1..], sep, last);
      var rest := Join(parts[1..], sep);
      assert parts[0] + sep + (rest + sep + last) == parts[0] + sep + rest + sep + last;
    }
  }

  /** There is at least one line, and the lines joined are the text up to one trailing newline. */
  lemma LinesAreContent(content: string)
    ensures var lines := ContentLines(content);
      && lines != [] && NoNewlines(lines)
      && content == Join(lines, "\n") + if EndsWithNewline(content) then "\n" else ""
  {
    var parts := Split(content, '\n');
    PartsAreLines(content);
    JoinSplit(content, '\n');
    if EndsWithNewline(content) {
      SplitPrefixOfEnd(content);
      FrontAndEmpty(parts);
    } else {
      assert content + "" == content;
    }
  }

  lemma PartsAreLines(content: string)
    ensures NoNewlines(Split(content, '\n'))
  {
    var parts := Split(content, '\n');
    forall i | 0 <= i < |parts| ensures '\n' !in parts[i] { assert parts[i] in parts; }
  }

  lemma FrontAndEmpty(parts: seq<string>)
    requires |parts| >= 2 && parts[|parts| - 1] == ""
    ensures Join(parts, "\n") == Join(parts[..|parts| - 1], "\n") + "\n"
  {
    var front := parts[..|parts| - 1];
    JoinSnoc(front, "\n", parts[|parts| - 1]);
    assert front + [parts[|parts| - 1]] == parts;
    var joined := Join(front, "\n");
    assert joined + "\n" + "" == joined + "\n";
  }

  /** A text that ends in a newline splits into its lines and an empty last piece. */
  lemma {:induction false} SplitPrefixOfEnd(content: string)
    requires EndsWithNewline(content)
    ensures var parts := Split(content, '\n'); |parts| >= 2 && parts[|parts| - 1] == ""
  {
    if |content| > 1 {
      SplitPrefixOfEnd(content[1..]);
    } else {
      assert content[1..] == "";
    }
  }

  // ---- Gutters ----

  function BeforeBar(s: string): string {
    if s == "" || s[0] == '|' then "" else [s[0]] + BeforeBar(s[1..])
  }

  function AfterBar(s: string): string {
    if s == "" then "" else if s[0] == '|' then s[1..] else AfterBar(s[1..])
  }

  lemma {:induction false} GutterStrips(digits: string, line: string)
    requires AllDigits(digits)
    ensures BeforeBar(digits + "|" + line) == digits && AfterBar(digits + "|" + line) == line
  {
    var s := digits + "|" + line;
    if digits == "" {
      assert s[1..] == line;
    } else {
      assert s[1..] == digits[1..] + "|" + line;
      GutterStrips(digits[1..], line);
    }
  }

  /** A line as a page shows it: its number and its text. */
  datatype Line = Line(number: nat, text: string)

  function ReadLine(piece: string): Line {
    Line(if AllDigits(BeforeBar(piece)) then Value(BeforeBar(piece)) else 0, AfterBar(piece))
  }

  lemma NumberedReadsBack(n: nat, line: string, maxChars: nat)
    ensures ReadLine(Numbered(n, line, maxChars)) == Line(n, TruncateLine(line, maxChars))
  {
    GutterStrips(Digits(n), TruncateLine(line, maxChars));
    ValueOfDigits(n);
  }

  lemma NotInSum<T>(x: T, a: seq<T>, b: seq<T>)
    requires x !in a && x !in b
    ensures x !in a + b
  {}

  lemma TruncatedIsOneLine(line: string, maxChars: nat)
    requires '\n' !in line
    ensures '\n' !in TruncateLine(line, maxChars)
  {
    if |line| > maxChars {
      NotInSum('\n', line[..maxChars], CUT_MARK);
    }
  }

  lemma NumberedIsOneLine(n: nat, line: string, maxChars: nat)
    requires '\n' !in line
    ensures '\n' !in Numbered(n, line, maxChars)
  {
    TruncatedIsOneLine(line, maxChars);
    NotInSum('\n', Digits(n), "|");
    NotInSum('\n', Digits(n) + "|", TruncateLine(line, maxChars));
  }

  predicate NoNewlines(lines: seq<string>) {
    forall i :: 0 <= i < |lines| ==> '\n' !in lines[i]
  }

  lemma SplitOfJoin(w: seq<string>)
    requires w != [] && NoNewlines(w)
    ensures Split(Join(w, "\n"), '\n') == w
  {
    forall p <- w ensures '\n' !in p { var i :| 0 <= i < |w| && w[i] == p; }
    SplitJoin(w, '\n');
  }

  /** The text of a page, taken apart. */
  function ReadPage(text: string): seq<Line> {
    var pieces := Split(text, '\n');
    seq(|pieces|, i requires 0 <= i < |pieces| => ReadLine(pieces[i]))
  }

  /** A stretch of the lines, each with its number and as it is shown. */
  ghost predicate Shows(shown: seq<Line>, lines: seq<string>, from: nat, maxChars: nat) {
    from + |shown| <= |lines| && forall i :: 0 <= i < |shown| ==>
      shown[i] == Line(from + 1 + i, TruncateLine(lines[from + i], maxChars))
  }

  /** The text of a page, taken apart, is the window's lines under their own numbers. */
  lemma PageReadsBack(lines: seq<string>, start: nat, end: nat, maxChars: nat)
    requires NoNewlines(lines) && 1 <= start <= end <= |lines|
    ensures var shown := ReadPage(Join(Window(lines, start, end, maxChars), "\n"));
      |shown| == end + 1 - start && Shows(shown, lines, start - 1, maxChars)
  {
    var window := Window(lines, start, end, maxChars);
    forall i | 0 <= i < |window|
      ensures '\n' !in window[i] && ReadLine(window[i]) == Line(start + i, TruncateLine(lines[start - 1 + i], maxChars))
    {
      NumberedIsOneLine(start + i, lines[start - 1 + i], maxChars);
      NumberedReadsBack(start + i, lines[start - 1 + i], maxChars);
    }
    SplitOfJoin(window);
  }

  /** A page that starts inside the text shows the lines from its first to its last, at least one, and is
      truncated exactly when lines are left after it. */
  lemma PageInside(lines: seq<string>, start: nat, limit: nat, maxChars: nat)
    requires NoNewlines(lines) && 1 <= start <= |lines| && limit >= 1
    ensures var page := PageAt(lines, start, limit, maxChars); var shown := ReadPage(page.text);
      && 0 < |shown| && Shows(shown, lines, start - 1, maxChars)
      && page.startLine == start && page.endLine == start - 1 + |shown| && page.truncated == (page.endLine < |lines|)
  {
    PageReadsBack(lines, start, EndLine(start, limit, |lines|), maxChars);
  }

  // ---- What was asked for ----

  ghost predicate IsLeast(n: nat, a: nat, b: nat, c: nat) {
    n <= a && n <= b && n <= c && (n == a || n == b || n == c)
  }

  function AtLeastOne(n: nat): nat {
    if n == 0 then 1 else n
  }

  /** The line itself when it fits; otherwise as much of it as fits, and the mark. */
  ghost predicate Fits(shown: string, line: string, maxChars: nat) {
    if |line| <= maxChars then shown == line
    else |shown| == maxChars + 15 && shown[..maxChars] == line[..maxChars] && shown[maxChars..] == "... [truncated]"
  }

  /** Line 1 for an offset of 0, the line asked for, or that many lines from the end. */
  ghost predicate StartsAsAsked(start: nat, offset: int, total: nat) {
    if offset >= 0 then start == AtLeastOne(offset)
    else if -offset >= total then start == 1 else start + -offset == total + 1
  }

  /** The lines from `start` on, each under its number. */
  ghost predicate FromStart(shown: seq<Line>, lines: seq<string>, start: nat, maxChars: nat) {
    start >= 1 && start - 1 + |shown| <= |lines| && forall i :: 0 <= i < |shown| ==>
      shown[i].number == start + i && Fits(shown[i].text, lines[start - 1 + i], maxChars)
  }

  /** A page that starts inside the text shows, from its start on, the limit asked for, as far as the page
      limit and the lines allow; one that starts past the end is empty. */
  ghost predicate AsAsked(page: Page, lines: seq<string>, offset: int, limit: Option<nat>, maxLines: nat, maxChars: nat)
  {
    && page.totalLines == |lines| && StartsAsAsked(page.startLine, offset, |lines|) && page.startLine >= 1
    && if page.startLine > |lines| then page == Page("", page.startLine, 0, |lines|, false)
       else
         var shown, asked := ReadPage(page.text), if limit.Some? then limit.value else maxLines;
         && IsLeast(|shown|, AtLeastOne(asked), AtLeastOne(maxLines), |lines| - page.startLine + 1)
         && page.endLine == page.startLine - 1 + |shown| && (page.truncated <==> page.endLine < |lines|)
         && FromStart(shown, lines, page.startLine, maxChars)
  }

  lemma TruncatedFits(line: string, maxChars: nat)
    ensures Fits(TruncateLine(line, maxChars), line, maxChars)
  {}

  lemma ShowsFromStart(shown: seq<Line>, lines: seq<string>, start: nat, maxChars: nat)
    requires start >= 1 && Shows(shown, lines, start - 1, maxChars)
    ensures FromStart(shown, lines, start, maxChars)
  {
    forall i | 0 <= i < |shown|
      ensures shown[i].number == start + i && Fits(shown[i].text, lines[start - 1 + i], maxChars)
    {
      TruncatedFits(lines[start - 1 + i], maxChars);
    }
  }

  lemma SizeIsLeast(start: nat, limit: Option<nat>, maxLines: nat, total: nat)
    requires 1 <= start <= total
    ensures IsLeast(EndLine(start, Limit(limit, maxLines), total) - start + 1,
              AtLeastOne(if limit.Some? then limit.value else maxLines), AtLeastOne(maxLines), total - start + 1)
  {}

  lemma PagedAsAsked(content: string, offset: int, limit: Option<nat>, maxLines: nat, maxChars: nat)
    ensures AsAsked(Paged(content, offset, limit, maxLines, maxChars), ContentLines(content), offset, limit, maxLines,
              maxChars)
  {
    var lines := ContentLines(content);
    var start := StartLine(offset, |lines|);
    HasLines(content);
    if start <= |lines| {
      var most := Limit(limit, maxLines);
      PageInside(lines, start, most, maxChars);
      SizeIsLeast(start, limit, maxLines, |lines|);
      ShowsFromStart(ReadPage(PageAt(lines, start, most, maxChars).text), lines, start, maxChars);
    }
  }

  // ---- Reading on ----

  lemma ShowsMore(shown: seq<Line>, more: seq<Line>, lines: seq<string>, maxChars: nat)
    requires Shows(shown, lines, 0, maxChars) && Shows(more, lines, |shown|, maxChars)
    ensures Shows(shown + more, lines, 0, maxChars)
  {}

  lemma HasLines(content: string)
    ensures |ContentLines(content)| > 0 && NoNewlines(ContentLines(content))
  {
    LinesAreContent(content);
  }

  /** The texts of the lines shown. */
  function Texts(shown: seq<Line>): seq<string> {
    seq(|shown|, i requires 0 <= i < |shown| => shown[i].text)
  }

  /** Every line shown and none cut: the text, up to one trailing newline. */
  lemma UncutIsContent(content: string, shown: seq<Line>, maxChars: nat)
    requires |shown| == |ContentLines(content)| && Shows(shown, ContentLines(content), 0, maxChars)
    ensures (forall i :: 0 <= i < |shown| ==> |ContentLines(content)[i]| <= maxChars) ==>
      content == Join(Texts(shown), "\n") + if EndsWithNewline(content) then "\n" else ""
  {
    if forall i :: 0 <= i < |shown| ==> |ContentLines(content)[i]| <= maxChars {
      assert Texts(shown) == ContentLines(content);
      LinesAreContent(content);
    }
  }

  /** What a reader reads and how it asks: any limit for each page. */
  datatype Reader = Reader(content: string, limits: nat -> Option<nat>, maxLines: nat, maxChars: nat)

  /** Where the next page of a reader starts: at line 1, or after the last line of the page before. */
  function NextStart(pages: seq<Page>): nat {
    if pages == [] then 1 else pages[|pages| - 1].endLine + 1
  }

  predicate GoesOn(pages: seq<Page>) {
    pages == [] || pages[|pages| - 1].truncated
  }

  /** The page a reader gets after those it has. */
  ghost function NextPage(r: Reader, pages: seq<Page>): Page {
    Paged(r.content, NextStart(pages), r.limits(|pages|), r.maxLines, r.maxChars)
  }

  /** The pages of one reader, each got after those before it and only while pages are truncated. */
  ghost predicate Chained(r: Reader, pages: seq<Page>) {
    pages == [] ||
      var front := pages[..|pages| - 1];
      Chained(r, front) && GoesOn(front) && pages[|pages| - 1] == NextPage(r, front)
  }

  lemma ChainedSnoc(r: Reader, pages: seq<Page>)
    requires Chained(r, pages) && GoesOn(pages)
    ensures Chained(r, pages + [NextPage(r, pages)])
  {
    assert (pages + [NextPage(r, pages)])[..|pages|] == pages;
  }

  /** What the pages show, put together. */
  ghost function Gathered(pages: seq<Page>): seq<Line> {
    if pages == [] then [] else Gathered(pages[..|pages| - 1]) + ReadPage(pages[|pages| - 1].text)
  }

  lemma GatheredSnoc(pages: seq<Page>, page: Page)
    ensures Gathered(pages + [page]) == Gathered(pages) + ReadPage(page.text)
  {
    assert (pages + [page])[..|pages|] == pages;
  }

  ghost predicate ReadSoFar(lines: seq<string>, pages: seq<Page>, maxChars: nat) {
    var shown := Gathered(pages);
    && Shows(shown, lines, 0, maxChars) && NextStart(pages) == |shown| + 1
    && (pages != [] ==> pages[|pages| - 1].truncated == (|shown| < |lines|))
  }

  lemma ReadsOn(lines: seq<string>, pages: seq<Page>, limit: nat, maxChars: nat)
    requires NoNewlines(lines) && ReadSoFar(lines, pages, maxChars) && |Gathered(pages)| < |lines| && limit >= 1
    ensures ReadSoFar(lines, pages + [PageAt(lines, NextStart(pages), limit, maxChars)], maxChars)
    ensures |Gathered(pages)| < |Gathered(pages + [PageAt(lines, NextStart(pages), limit, maxChars)])| <= |lines|
  {
    var page := PageAt(lines, NextStart(pages), limit, maxChars);
    PageInside(lines, NextStart(pages), limit, maxChars);
    ShowsMore(Gathered(pages), ReadPage(page.text), lines, maxChars);
    GatheredSnoc(pages, page);
  }

  /** One more page, and less is left to read. */
  lemma NextReadsOn(r: Reader, lines: seq<string>, pages: seq<Page>)
    requires lines == ContentLines(r.content) && NoNewlines(lines) && |lines| > 0
      && ReadSoFar(lines, pages, r.maxChars) && GoesOn(pages)
    ensures ReadSoFar(lines, pages + [NextPage(r, pages)], r.maxChars)
    ensures |Gathered(pages)| < |Gathered(pages + [NextPage(r, pages)])| <= |lines|
  {
    assert NextPage(r, pages) == PageAt(lines, NextStart(pages), Limit(r.limits(|pages|), r.maxLines), r.maxChars);
    ReadsOn(lines, pages, Limit(r.limits(|pages|), r.maxLines), r.maxChars);
  }

  method ReadOn(r: Reader, ghost lines: seq<string>) returns (pages: seq<Page>)
    requires lines == ContentLines(r.content) && NoNewlines(lines) && |lines| > 0
    ensures Chained(r, pages) && !GoesOn(pages) && ReadSoFar(lines, pages, r.maxChars)
  {
    pages := [];
    var more, next := true, 1;
    while more
      invariant Chained(r, pages) && ReadSoFar(lines, pages, r.maxChars) && next == NextStart(pages)
        && more == GoesOn(pages)
      decreases |lines| - |Gathered(pages)|
    {
      var page := Paginate(r.content, next, r.limits(|pages|), r.maxLines, r.maxChars);
      assert page == NextPage(r, pages);
      ChainedSnoc(r, pages);
      NextReadsOn(r, lines, pages);
      pages := pages + [page];
      more, next := page.truncated, page.endLine + 1;
    }
  }

  lemma AllRead(lines: seq<string>, pages: seq<Page>, maxChars: nat)
    requires ReadSoFar(lines, pages, maxChars) && !GoesOn(pages)
    ensures |Gathered(pages)| == |lines| == NextStart(pages) - 1 && Shows(Gathered(pages), lines, 0, maxChars)
  {}

  /** Read page after page, going on at `endLine + 1` until a page is not truncated. The pages show every
      line once, in order and under its own number; with no line cut, the lines joined give the text back
      up to one trailing newline. */
  method ReadAll(r: Reader) returns (pages: seq<Page>)
    ensures Chained(r, pages) && !GoesOn(pages)
    ensures var lines, shown := ContentLines(r.content), Gathered(pages);
      && |shown| == |lines| == NextStart(pages) - 1 && Shows(shown, lines, 0, r.maxChars)
      && ((forall i :: 0 <= i < |lines| ==> |lines[i]| <= r.maxChars) ==>
           r.content == Join(Texts(shown), "\n") + if EndsWithNewline(r.content) then "\n" else "")
  {
    HasLines(r.content);
    pages := ReadOn(r, ContentLines(r.content));
    AllRead(ContentLines(r.content), pages, r.maxChars);
    UncutIsContent(r.content, Gathered(pages), r.maxChars);
  }

  /** A tail read of the last `n` lines is the forward read that starts that far from the end, and is
      never empty. */
  lemma TailReadIsForward(content: string, n: nat, limit: Option<nat>, maxLines: nat, maxChars: nat)
    requires n > 0
    ensures var total := |ContentLines(content)|;
      var forward := if total >= n then total - n + 1 else 1;
      && Paged(content, 0 - n, limit, maxLines, maxChars) == Paged(content, forward, limit, maxLines, maxChars)
      && forward <= total && Paged(content, forward, limit, maxLines, maxChars).startLine == forward
  {
    LinesAreContent(content);
    var total := |ContentLines(content)|;
    assert StartLine(0 - n, total) == StartLine(if total >= n then total - n + 1 else 1, total);
  }
}
