/**
 Documents built from the constructs of Markdown, and what the scanner finds in them: the destinations
 they were built with, each where it was put, and nothing else.
 */
module UrlDocuments {
  import opened Options
  import opened TextScan
  import opened UrlSyntax
  import opened UrlRanges
  import opened UrlSubstitution
  import opened UrlRecognition
  import opened UrlRewrite

  // ---- pieces of a line

  datatype Piece =
    | Words(text: string)
    | Bracket(words: string, slashes: nat)                                                // [words\]
    | BareLink(words: string, slashes: nat, blanks: string, url: string, stop: char)      // [words](url)
    | AngleLink(words: string, slashes: nat, blanks: string, url: string)                 // [words](<url>
    | Code(width: nat, text: string)
    | Comment(text: string)
    | Element(name: string, attributes: seq<Attribute>, closed: bool)
    | Closing(name: string)
    | HtmlCode(name: string, text: string, closing: string)
    | EmptyCode(name: string)                                                             // <code />

  function PieceText(p: Piece): string {
    match p
    case Words(text) => text
    case Bracket(words, slashes) => Label(words, slashes) + "]"
    case BareLink(words, slashes, blanks, url, stop) => Label(words, slashes) + "](" + (blanks + url) + [stop]
    case AngleLink(words, slashes, blanks, url) => Label(words, slashes) + "](" + (blanks + "<" + url + ">")
    case Code(width, text) => CodeSpan(width, text)
    case Comment(text) => "<!--" + text + "-->"
    case Element(name, attributes, closed) => TagText(name, attributes, closed)
    case Closing(name) => ClosingText(name)
    case HtmlCode(name, text, closing) => TagText(name, [], false) + text + ClosingText(closing)
    case EmptyCode(name) => TagText(name, [], true)
  }

  predicate IsCodeName(name: string) {
    Lower(name) == "code" || Lower(name) == "pre"
  }

  /** A well-formed piece, and what may not follow it. */
  predicate IsPiece(p: Piece, next: string) {
    match p
    case Words(text) => forall k :: 0 <= k < |text| ==> IsWord(text[k])
    case Bracket(words, slashes) => IsLabel(words) && (slashes % 2 == 1 || next == "" || next[0] != '(')
    case BareLink(words, slashes, blanks, url, stop) => IsLabel(words) && slashes % 2 == 0 && Blanks(blanks) && IsBare(url) && stop in {' ', '\t', '\r', ')'}
    case AngleLink(words, slashes, blanks, url) => IsLabel(words) && slashes % 2 == 0 && Blanks(blanks) && url != "" && '>' !in url
    case Code(width, text) => width > 0 && text != "" && '`' !in text && (next == "" || next[0] != '`')
    case Comment(text) => '>' !in text
    case Element(name, attributes, closed) => IsName(name) && !IsCodeName(name) && AllAttributes(attributes)
    case Closing(name) => IsName(name)
    case HtmlCode(name, text, closing) => IsName(name) && IsCodeName(name) && IsName(closing) && IsCodeName(closing) && '<' !in text && '`' !in text
    case EmptyCode(name) => IsName(name) && IsCodeName(name)
  }

  /** The destinations of a piece at position `at`. */
  function PieceFound(p: Piece, at: nat): seq<Range> {
    match p
    case BareLink(words, slashes, blanks, url, _) =>
      var start := at + |words| + slashes + 3 + |blanks|;
      [Range(start, start + |url|)]
    case AngleLink(words, slashes, blanks, url) =>
      var start := at + |words| + slashes + 4 + |blanks|;
      [Range(start, start + |url|)]
    case Element(name, attributes, _) => AttributeTargets(attributes, at + 1 + |name|, Lower(name))
    case _ => []
  }

  function PiecesText(pieces: seq<Piece>): string {
    if pieces == [] then "" else PieceText(pieces[0]) + PiecesText(pieces[1..])
  }

  predicate ArePieces(pieces: seq<Piece>) {
    pieces == [] || (IsPiece(pieces[0], PiecesText(pieces[1..])) && ArePieces(pieces[1..]))
  }

  function PiecesFound(pieces: seq<Piece>, at: nat): seq<Range> {
    if pieces == [] then [] else PieceFound(pieces[0], at) + PiecesFound(pieces[1..], at + |PieceText(pieces[0])|)
  }

  predicate Ordinary(m: Mode) {
    m.fenceWidth == 0 && m.codeWidth == 0 && !m.inComment && !m.inHtmlCode
  }

  /** What follows a piece in its line. */
  ghost predicate Before(line: string, j: nat, next: string) {
    j <= |line| && line[j..] == next
  }

  lemma PieceScanned(line: string, i: nat, p: Piece, next: string, m: Mode)
    requires Here(line, i, PieceText(p)) && Before(line, i + |PieceText(p)|, next) && IsPiece(p, next) && Ordinary(m)
    ensures ScanInline(line, i, m) == Found(PieceFound(p, i), ScanInline(line, i + |PieceText(p)|, m))
  {
    hide ScanInline, Here, IsLabel, IsBare, Blanks, IsName, AllAttributes, TagText, Label, Lower, AttributeTargets, CodeSpan;
    var j := i + |PieceText(p)|;
    assert next != "" ==> j < |line| && line[j] == next[0];
    match p
    case Words(text) => WordsScanned(line, i, text, m);
    case Bracket(words, slashes) => LabelLength(words, slashes); BracketSkipped(line, i, words, slashes, m);
    case BareLink(words, slashes, blanks, url, stop) => LabelLength(words, slashes); BareLinkScanned(line, i, words, slashes, blanks, url, stop, m);
    case AngleLink(words, slashes, blanks, url) => LabelLength(words, slashes); AngleLinkScanned(line, i, words, slashes, blanks, url, m);
    case Code(width, text) => CodeLength(width, text); CodeSpanSkipped(line, i, width, text, m);
    case Comment(text) => CommentSkipped(line, i, text, m);
    case Element(name, attributes, closed) => ResourceFound(line, i, name, attributes, closed, m);
    case Closing(name) => ClosingScanned(line, i, name, m);
    case HtmlCode(name, text, closing) => TagLength(name, false); HtmlCodeSkipped(line, i, name, text, closing, m);
    case EmptyCode(name) => CodeElementScanned(line, i, name, true, m);
  }

  lemma LabelLength(words: string, slashes: nat)
    ensures |Label(words, slashes)| == |words| + slashes + 1
  {
  }

  lemma CodeLength(width: nat, text: string)
    ensures |CodeSpan(width, text)| == 2 * width + |text|
  {
  }

  lemma TagLength(name: string, closed: bool)
    ensures |TagText(name, [], closed)| == |name| + 2 + |Tail(closed)|
  {
  }

  lemma WordsScanned(line: string, i: nat, text: string, m: Mode)
    requires Here(line, i, text) && (forall k :: 0 <= k < |text| ==> IsWord(text[k])) && Open(m)
    ensures ScanInline(line, i, m) == ScanInline(line, i + |text|, m)
  {
    hide ScanInline;
    forall k | i <= k < i + |text|
      ensures IsWord(line[k])
    {
      assert line[k] == text[k - i];
    }
    SkipWords(line, i, i + |text|, m);
  }

  lemma BareLinkScanned(line: string, i: nat, words: string, slashes: nat, blanks: string, url: string, stop: char, m: Mode)
    requires Here(line, i, Label(words, slashes) + "](" + (blanks + url) + [stop]) && IsLabel(words) && slashes % 2 == 0 && Blanks(blanks) && IsBare(url)
    requires stop in {' ', '\t', '\r', ')'} && Ordinary(m)
    ensures var start := i + |words| + slashes + 3 + |blanks|;
      start + |url| + 1 <= |line| && ScanInline(line, i, m) == Found([Range(start, start + |url|)], ScanInline(line, start + |url| + 1, m))
  {
    hide ScanInline, IsLabel, IsBare, Blanks, Destination;
    var opening := Label(words, slashes) + "](";
    LabelLength(words, slashes);
    HereSplit(line, i, opening + (blanks + url), [stop]);
    HereSplit(line, i, opening, blanks + url);
    var start := i + |opening| + |blanks|;
    var end := start + |url|;
    assert line[end] == [stop][0];
    BareFound(line, i + |opening|, blanks, url);
    LinkFound(line, i, words, slashes, m, Range(start, end));
    SkipWords(line, end, end + 1, m);
  }

  lemma AngleLinkScanned(line: string, i: nat, words: string, slashes: nat, blanks: string, url: string, m: Mode)
    requires Here(line, i, Label(words, slashes) + "](" + (blanks + "<" + url + ">")) && IsLabel(words) && slashes % 2 == 0 && Blanks(blanks) && url != "" && '>' !in url
    requires Ordinary(m)
    ensures var start := i + |words| + slashes + 4 + |blanks|;
      start + |url| + 1 <= |line| && ScanInline(line, i, m) == Found([Range(start, start + |url|)], ScanInline(line, start + |url| + 1, m))
  {
    hide ScanInline, IsLabel, Blanks, Destination;
    var opening := Label(words, slashes) + "](";
    LabelLength(words, slashes);
    HereSplit(line, i, opening, blanks + "<" + url + ">");
    HereSplit(line, i + |opening|, blanks + "<" + url, ">");
    var start := i + |opening| + |blanks| + 1;
    var end := start + |url|;
    assert line[end] == ">"[0];
    AngleFound(line, i + |opening|, blanks, url);
    LinkFound(line, i, words, slashes, m, Range(start, end));
    SkipWords(line, end, end + 1, m);
  }

  /** Scanning a line finds exactly the destinations of its pieces. */
  lemma {:induction false} PiecesScanned(line: string, i: nat, pieces: seq<Piece>, m: Mode)
    requires i <= |line| && line[i..] == PiecesText(pieces) && ArePieces(pieces) && Ordinary(m)
    ensures ScanInline(line, i, m) == Scan(m, PiecesFound(pieces, i))
    decreases |pieces|
  {
    hide PieceText, PieceFound, IsPiece, Here, ScanInline;
    if pieces == [] {
      assert i == |line|;
      ScanDone(line, m);
    } else {
      var text, next := PieceText(pieces[0]), PiecesText(pieces[1..]);
      assert line[i..] == text + next;
      RestIs(line, i, text, next);
      PieceScanned(line, i, pieces[0], next, m);
      PiecesScanned(line, i + |text|, pieces[1..], m);
    }
  }

  lemma ScanDone(line: string, m: Mode)
    ensures ScanInline(line, |line|, m) == Scan(m, [])
  {
  }

  lemma RestIs(line: string, i: nat, text: string, next: string)
    requires i <= |line| && line[i..] == text + next
    ensures i + |text| <= |line| && Here(line, i, text) && Before(line, i + |text|, next)
  {
    assert forall k :: i <= k < i + |text| ==> line[k] == line[i..][k - i];
    assert line[i + |text|..] == line[i..][|text|..];
  }

  // ---- lines

  lemma {:induction false} BlankIs(s: string)
    ensures IsBlank(s) <==> AllWhite(s)
  {
    hide IsWhiteSpace;
    assert TrimRight(s) <= s;
    assert TrimRight(s) != "" ==> s[|TrimRight(s)| - 1] == TrimRight(s)[|TrimRight(s)| - 1];
  }

  /** Up to three spaces, `width` markers and white space. */
  predicate IsFenceLine(line: string, indent: nat, marker: char, width: nat, after: string) {
    indent <= 3 && line == Repeat(' ', indent) + Repeat(marker, width) + after
  }

  /** A line that ends a block that `width` markers opened. */
  ghost predicate EndsFence(line: string, marker: char, width: nat) {
    exists indent, n: nat, after :: n >= width && IsFenceLine(line, indent, marker, n, after) && AllWhite(after)
  }

  predicate IsMarker(c: char) {
    c == '`' || c == '~'
  }

  /** What the scanner sees in a line of spaces, markers and more. */
  lemma FenceSeen(line: string, indent: nat, marker: char, width: nat, after: string)
    requires IsFenceLine(line, indent, marker, width, after) && width >= 3 && IsMarker(marker) && (after == "" || after[0] != marker)
    ensures FenceOf(line) == FenceMark(marker, width, indent + width) && line[indent + width..] == after
  {
    var i := indent + width;
    assert forall k :: 0 <= k < indent ==> line[k] == ' ';
    assert forall k :: indent <= k < i ==> line[k] == marker;
    assert line[i..] == after;
    assert i < |line| ==> line[i] == after[0];
    SpanIs(line, 0, Only(' '), indent);
    SpanIs(line, indent, Only(marker), i);
  }

  /** A line with a fence is made of spaces, markers and the rest. */
  lemma FenceMade(line: string)
    requires FenceOf(line).width != 0
    ensures var f := FenceOf(line);
      f.width <= f.after && IsFenceLine(line, f.after - f.width, f.marker, f.width, line[f.after..]) && IsMarker(f.marker)
  {
    var f := FenceOf(line);
    var indent := f.after - f.width;
    SpanRun(line, 0, Only(' '));
    SpanRun(line, indent, Only(line[indent]));
    assert line[..indent] == Repeat(' ', indent);
    assert line[indent..f.after] == Repeat(f.marker, f.width);
    assert line == line[..indent] + line[indent..f.after] + line[f.after..];
  }

  lemma ClosesFenceIs(line: string, m: Mode)
    requires IsMarker(m.fence) && m.fenceWidth >= 3
    ensures ClosesFence(line, m) <==> EndsFence(line, m.fence, m.fenceWidth)
  {
    hide FenceOf, IsFenceLine, AllWhite, IsBlank;
    if ClosesFence(line, m) {
      FenceMade(line);
      BlankIs(line[FenceOf(line).after..]);
    }
    if indent: nat, n: nat, after :| n >= m.fenceWidth && IsFenceLine(line, indent, m.fence, n, after) && AllWhite(after) {
      BlankIs(after);
      WhiteIsNoMarker(after, m.fence);
      FenceSeen(line, indent, m.fence, n, after);
    }
  }

  lemma WhiteIsNoMarker(s: string, marker: char)
    requires AllWhite(s) && IsMarker(marker)
    ensures s == "" || s[0] != marker
  {
  }

  /** A line that starts neither with blanks nor as a fence, and is no definition. */
  predicate IsProse(line: string) {
    line == "" ||
    (&& line[0] != ' ' && line[0] != '\t' && !("```" <= line) && !("~~~" <= line)
     && (line[0] == '[' ==> forall k :: 0 <= k < |line| - 1 ==> !(line[k] == ']' && line[k + 1] == ':')))
  }

  lemma ProseScanned(line: string, m: Mode)
    requires IsProse(line) && Ordinary(m)
    ensures ScanLine(line, m) == ScanInline(line, 0, m)
  {
    hide ScanInline, Destination, IndexOf;
    if line != "" {
      SpanIs(line, 0, Only(' '), 0);
      IndentedIs(line);
      NoFence(line);
      if line[0] == '[' {
        NeverCloses(line, 1);
      }
    }
  }

  lemma NoFence(line: string)
    requires line != "" && line[0] != ' ' && !("```" <= line) && !("~~~" <= line)
    ensures FenceOf(line).width == 0
  {
    SpanIs(line, 0, Only(' '), 0);
    var end := Span(line, 0, Only(line[0]));
    SpanRun(line, 0, Only(line[0]));
    if end >= 3 {
      assert line[..3] == [line[0], line[0], line[0]];
    }
  }

  lemma {:induction false} NeverCloses(line: string, i: nat)
    requires i <= |line| && forall k :: i <= k < |line| - 1 ==> !(line[k] == ']' && line[k + 1] == ':')
    ensures IndexOf(line, i, "]:").None?
    decreases |line| - i
  {
    ClosesIs(line, i);
    if i < |line| {
      NeverCloses(line, i + 1);
    }
  }

  function DefinitionText(indent: nat, words: string): string {
    Repeat(' ', indent) + "[" + words + "]:"
  }

  lemma DefinitionParts(line: string, front: string, words: string)
    requires Here(line, 0, front + "[" + words + "]:")
    ensures |front| + |words| + 3 <= |line| && Here(line, 0, front) && line[|front|] == '['
    ensures Here(line, |front| + 1, words) && Here(line, |front| + 1 + |words|, "]:")
  {
    hide Here;
    HereSplit(line, 0, front + "[" + words, "]:");
    HereSplit(line, 0, front + "[", words);
    HereSplit(line, 0, front, "[");
    HereEnds(line, |front| + 1 + |words|, "]:");
    HereOne(line, |front|, '[');
  }

  lemma HereOne(line: string, i: nat, c: char)
    requires Here(line, i, [c])
    ensures i < |line| && line[i] == c
  {
    assert line[i] == [c][0];
  }

  lemma DefinitionHere(line: string, indent: nat, words: string)
    requires ']' !in words && Here(line, 0, DefinitionText(indent, words))
    ensures indent + |words| + 3 <= |line| && (forall k :: 0 <= k < indent ==> line[k] == ' ') && line[indent] == '['
    ensures IndexOf(line, indent + 1, "]:") == Some(indent + 1 + |words|)
  {
    hide IndexOf, Repeat, Here;
    var front := Repeat(' ', indent);
    DefinitionParts(line, front, words);
    TextWithout(line, 0, front);
    TextWithout(line, indent + 1, words);
    FirstClosing(line, indent + 1, indent + 1 + |words|);
  }

  /** A reference definition, indented by at most three spaces. */
  lemma DefinitionScanned(line: string, indent: nat, words: string, m: Mode, d: Range)
    requires indent <= 3 && words != "" && ']' !in words && Here(line, 0, DefinitionText(indent, words)) && Ordinary(m)
    requires indent + |words| + 3 <= |line| && Destination(line, indent + |words| + 3) == Some(d)
    ensures ScanLine(line, m) == Scan(m, [d])
  {
    hide ScanInline, Destination, IndexOf, Here;
    DefinitionHere(line, indent, words);
    SpanIs(line, 0, Only(' '), indent);
    IndentedIs(line);
  }

  /** The first closing bracket, when a colon follows it. */
  lemma {:induction false} FirstClosing(line: string, i: nat, j: nat)
    requires i <= j && Here(line, j, "]:") && forall k :: i <= k < j ==> line[k] != ']'
    ensures IndexOf(line, i, "]:") == Some(j)
    decreases j - i
  {
    hide StartsAt;
    ClosesIs(line, i);
    if i < j {
      FirstClosing(line, i + 1, j);
    } else {
      assert line[j] == "]:"[0] && line[j + 1] == "]:"[1];
    }
  }

  /** A line indented by a tab or four spaces is code. */
  lemma IndentedScanned(line: string, m: Mode)
    requires ("\t" <= line || "    " <= line) && Ordinary(m)
    ensures ScanLine(line, m) == Scan(m, [])
  {
    IndentedIs(line);
    SpanRun(line, 0, Only(' '));
    if "\t" <= line {
      SpanIs(line, 0, Only(' '), 0);
    }
  }

  // ---- constructs that stay open over several lines

  datatype Hiding = InComment | InCode(width: nat) | InHtmlCode(name: string, closing: string)

  predicate IsHiding(h: Hiding) {
    match h
    case InComment => true
    case InCode(width) => width > 0
    case InHtmlCode(name, closing) => IsName(name) && IsCodeName(name) && IsName(closing) && IsCodeName(closing)
  }

  function OpeningText(h: Hiding): string {
    match h
    case InComment => "<!--"
    case InCode(width) => Repeat('`', width)
    case InHtmlCode(name, _) => TagText(name, [], false)
  }

  function EndingText(h: Hiding): string {
    match h
    case InComment => "-->"
    case InCode(width) => Repeat('`', width)
    case InHtmlCode(_, closing) => ClosingText(closing)
  }

  /** Text that leaves the construct open. */
  predicate IsHidden(h: Hiding, text: string) {
    match h
    case InComment => '>' !in text
    case InCode(_) => '`' !in text
    case InHtmlCode(_, _) => '<' !in text && '`' !in text
  }

  function Inside(h: Hiding, m: Mode): Mode {
    match h
    case InComment => m.(inComment := true)
    case InCode(width) => m.(codeWidth := width)
    case InHtmlCode(_, _) => m.(inHtmlCode := true)
  }

  lemma Opens(line: string, i: nat, h: Hiding, m: Mode)
    requires IsHiding(h) && Ordinary(m) && Here(line, i, OpeningText(h)) && (h.InCode? && i + h.width < |line| ==> line[i + h.width] != '`')
    ensures i + |OpeningText(h)| <= |line| && ScanInline(line, i, m) == ScanInline(line, i + |OpeningText(h)|, Inside(h, m))
  {
    hide ScanInline, Here, IsName, TagText, Lower;
    HereEnds(line, i, OpeningText(h));
    match h
    case InComment => CommentOpens(line, i, m);
    case InCode(width) => BacktickRun(line, i, width, m);
    case InHtmlCode(name, _) => CodeElementScanned(line, i, name, false, m);
  }

  lemma CommentOpens(line: string, i: nat, m: Mode)
    requires Here(line, i, "<!--") && Open(m)
    ensures ScanInline(line, i, m) == ScanInline(line, i + 4, m.(inComment := true))
  {
    hide ScanInline, StartsAt;
    StartsHere(line, i, "<!--");
    ScanStep(line, i, m);
  }

  /** The rest of a line in which the construct stays open. */
  lemma StaysOpen(line: string, i: nat, h: Hiding, m: Mode)
    requires IsHiding(h) && Ordinary(m) && i <= |line| && IsHidden(h, line[i..])
    ensures ScanInline(line, i, Inside(h, m)) == Scan(Inside(h, m), [])
  {
    hide ScanInline, IsName, Lower;
    assert forall k :: i <= k < |line| ==> line[k] in line[i..] by { TextIn(line, i, line[i..]); }
    ScanDone(line, Inside(h, m));
    match h
    case InComment => CommentStays(line, i, Inside(h, m));
    case InCode(width) => SkipCode(line, i, |line|, Inside(h, m));
    case InHtmlCode(_, _) => SkipHtmlCode(line, i, |line|, Inside(h, m));
  }

  lemma CommentStays(line: string, i: nat, m: Mode)
    requires i <= |line| && m.inComment && forall k :: i <= k < |line| ==> line[k] != '>'
    ensures ScanInline(line, i, m) == Scan(m, [])
  {
    hide ScanInline, IndexOf;
    ScanDone(line, m);
    if i < |line| {
      NeverAt(line, i, "-->");
      ScanStep(line, i, m);
    }
  }

  lemma {:induction false} NeverAt(s: string, i: nat, target: string)
    requires i <= |s| && target != "" && forall k :: i <= k < |s| ==> s[k] != target[|target| - 1]
    ensures IndexOf(s, i, target).None?
    decreases |s| - i
  {
    hide StartsAt;
    StartsHere(s, i, target);
    if i + |target| <= |s| {
      assert s[i + |target| - 1] != target[|target| - 1];
    }
    if i < |s| {
      NeverAt(s, i + 1, target);
    }
  }

  /** The end of the construct, after some more of its text. */
  lemma Ends(line: string, i: nat, h: Hiding, text: string, m: Mode)
    requires IsHiding(h) && Ordinary(m) && Here(line, i, text + EndingText(h)) && IsHidden(h, text)
    requires var j := i + |text| + |EndingText(h)|; h.InCode? && j < |line| ==> line[j] != '`'
    ensures var j := i + |text| + |EndingText(h)|; j <= |line| && ScanInline(line, i, Inside(h, m)) == ScanInline(line, j, m)
  {
    hide ScanInline, Here, IsName, TagText, Lower;
    HereEnds(line, i, text + EndingText(h));
    HereSplit(line, i, text, EndingText(h));
    TextWithout(line, i, text);
    match h
    case InComment => CommentEnds(line, i, text, Inside(h, m));
    case InCode(width) => SkipCode(line, i, i + |text|, Inside(h, m)); BacktickRun(line, i + |text|, width, Inside(h, m));
    case InHtmlCode(_, closing) => SkipHtmlCode(line, i, i + |text|, Inside(h, m)); ClosingScanned(line, i + |text|, closing, Inside(h, m));
  }

  lemma CommentEnds(line: string, i: nat, text: string, m: Mode)
    requires Here(line, i, text + "-->") && '>' !in text && m.inComment
    ensures ScanInline(line, i, m) == ScanInline(line, i + |text| + 3, m.(inComment := false))
  {
    hide ScanInline, IndexOf;
    HereSplit(line, i, text, "-->");
    TextWithout(line, i, text);
    var j := i + |text|;
    assert line[j] == "-->"[0] && line[j + 1] == "-->"[1];
    FirstAt(line, i, "-->", j);
    ScanStep(line, i, m);
  }

  predicate IsIndented(line: string) {
    "\t" <= line || "    " <= line
  }

  /** Inside the construct a line is neither a fence nor a definition; an indented one is passed over. */
  lemma InsideScanned(line: string, h: Hiding, m: Mode)
    requires IsHiding(h) && Ordinary(m)
    ensures ScanLine(line, Inside(h, m)) == if IsIndented(line) then Scan(Inside(h, m), []) else ScanInline(line, 0, Inside(h, m))
  {
    hide ScanInline, IsName, Lower, FenceOf;
  }

  // ---- blocks

  datatype Block =
    | Paragraph(pieces: seq<Piece>)                                                              // one line of it
    | Definition(indent: nat, words: string, blanks: string, url: string, rest: string)          // [words]: url
    | AngleDefinition(indent: nat, words: string, blanks: string, url: string, rest: string)     // [words]: <url>
    | Indented(text: string)
    | Fenced(indent: nat, marker: char, width: nat, info: string, body: seq<string>, last: string)
    | Hidden(h: Hiding, before: string, first: string, middle: seq<string>, last: string, after: seq<Piece>)

  function BlockLines(b: Block): seq<string> {
    match b
    case Paragraph(pieces) => [PiecesText(pieces)]
    case Definition(indent, words, blanks, url, rest) => [DefinitionText(indent, words) + (blanks + url) + rest]
    case AngleDefinition(indent, words, blanks, url, rest) => [DefinitionText(indent, words) + (blanks + "<" + url + ">") + rest]
    case Indented(text) => [text]
    case Fenced(indent, marker, width, info, body, last) => [Repeat(' ', indent) + Repeat(marker, width) + info] + body + [last]
    case Hidden(h, before, first, middle, last, after) => [before + OpeningText(h) + first] + middle + [last + EndingText(h) + PiecesText(after)]
  }

  ghost predicate IsBlock(b: Block) {
    && (forall k :: 0 <= k < |BlockLines(b)| ==> '\n' !in BlockLines(b)[k])
    && match b
       case Paragraph(pieces) => ArePieces(pieces) && IsProse(PiecesText(pieces))
       case Definition(indent, words, blanks, url, rest) =>
         indent <= 3 && words != "" && ']' !in words && Blanks(blanks) && IsBare(url) && (rest == "" || rest[0] in {' ', '\t', '\r', ')'})
       case AngleDefinition(indent, words, blanks, url, rest) => indent <= 3 && words != "" && ']' !in words && Blanks(blanks) && url != "" && '>' !in url
       case Indented(text) => "\t" <= text || "    " <= text
       case Fenced(indent, marker, width, info, body, last) =>
         && indent <= 3 && IsMarker(marker) && width >= 3 && (info == "" || info[0] != marker)
         && (forall k :: 0 <= k < |body| ==> !EndsFence(body[k], marker, width)) && EndsFence(last, marker, width)
       case Hidden(h, before, first, middle, last, after) =>
         && IsHiding(h) && IsProse(before + OpeningText(h) + first) && IsPiece(Words(before), "") && IsHidden(h, first) && IsHidden(h, last)
         && (forall k :: 0 <= k < |middle| ==> IsHidden(h, middle[k])) && !IsIndented(last + EndingText(h) + PiecesText(after))
         && ArePieces(after) && (h.InCode? && PiecesText(after) != "" ==> PiecesText(after)[0] != '`')
  }

  /** Where the line starts that ends a construct of several lines. */
  function LastStart(b: Block): nat
    requires b.Hidden?
  {
    |b.before| + |OpeningText(b.h)| + |b.first| + 1 + Room(b.middle)
  }

  function BlockFound(b: Block, at: nat): seq<Range> {
    match b
    case Paragraph(pieces) => PiecesFound(pieces, at)
    case Definition(indent, words, blanks, url, _) =>
      var start := at + indent + |words| + 3 + |blanks|;
      [Range(start, start + |url|)]
    case AngleDefinition(indent, words, blanks, url, _) =>
      var start := at + indent + |words| + 4 + |blanks|;
      [Range(start, start + |url|)]
    case Hidden(h, before, first, middle, last, after) => PiecesFound(after, at + LastStart(b) + |last| + |EndingText(h)|)
    case _ => []
  }

  /** Scanning some lines, the first of which starts at position `at`. */
  function ScanLines(lines: seq<string>, at: nat, m: Mode): Scan {
    if lines == [] then Scan(m, []) else
    var first := ScanLine(lines[0], m);
    var rest := ScanLines(lines[1..], at + |lines[0]| + 1, first.mode);
    Scan(rest.mode, Shift(first.found, at) + rest.found)
  }

  /** The room some lines take, with their newlines. */
  function Room(lines: seq<string>): nat {
    if lines == [] then 0 else |lines[0]| + 1 + Room(lines[1..])
  }

  lemma {:induction false} ScanConcat(a: seq<string>, b: seq<string>, at: nat, m: Mode)
    ensures var x := ScanLines(a, at, m); ScanLines(a + b, at, m) == Found(x.found, ScanLines(b, at + Room(a), x.mode))
    decreases |a|
  {
    hide ScanLine;
    if a == [] {
      assert a + b == b;
    } else {
      assert (a + b)[1..] == a[1..] + b;
      ScanConcat(a[1..], b, at + |a[0]| + 1, ScanLine(a[0], m).mode);
    }
  }

  lemma ScanOne(line: string, at: nat, m: Mode)
    ensures ScanLines([line], at, m) == Scan(ScanLine(line, m).mode, Shift(ScanLine(line, m).found, at))
  {
    hide ScanLine;
    assert [line][1..] == [];
    assert ScanLines([], at + |line| + 1, ScanLine(line, m).mode).found == [];
  }

  lemma ShiftConcat(a: seq<Range>, b: seq<Range>, at: nat)
    ensures Shift(a + b, at) == Shift(a, at) + Shift(b, at) && Shift([], at) == []
  {
  }

  lemma {:induction false} ShiftedPieces(pieces: seq<Piece>, i: nat, at: nat)
    ensures Shift(PiecesFound(pieces, i), at) == PiecesFound(pieces, i + at)
    decreases |pieces|
  {
    hide PieceText, PieceFound, Shift;
    ShiftConcat([], [], at);
    if pieces != [] {
      ShiftedPiece(pieces[0], i, at);
      ShiftedPieces(pieces[1..], i + |PieceText(pieces[0])|, at);
      ShiftConcat(PieceFound(pieces[0], i), PiecesFound(pieces[1..], i + |PieceText(pieces[0])|), at);
    }
  }

  lemma ShiftedPiece(p: Piece, i: nat, at: nat)
    ensures Shift(PieceFound(p, i), at) == PieceFound(p, i + at)
  {
    hide Lower, AttributeTargets;
    if p.Element? {
      ShiftedAttributes(p.attributes, i + 1 + |p.name|, at, Lower(p.name));
    }
  }

  lemma {:induction false} ShiftedAttributes(attributes: seq<Attribute>, i: nat, at: nat, element: string)
    ensures Shift(AttributeTargets(attributes, i, element), at) == AttributeTargets(attributes, i + at, element)
    decreases |attributes|
  {
    hide AttributeText, AttributeTarget, Shift;
    ShiftConcat([], [], at);
    if attributes != [] {
      ShiftedAttribute(attributes[0], i, at, element);
      ShiftedAttributes(attributes[1..], i + |AttributeText(attributes[0])|, at, element);
      ShiftConcat(AttributeTarget(attributes[0], i, element), AttributeTargets(attributes[1..], i + |AttributeText(attributes[0])|, element), at);
    }
  }

  lemma ShiftedAttribute(a: Attribute, i: nat, at: nat, element: string)
    ensures Shift(AttributeTarget(a, i, element), at) == AttributeTarget(a, i + at, element)
  {
    hide Lower;
  }

  lemma LineScanned(b: Block, at: nat, m: Mode)
    requires IsBlock(b) && !b.Fenced? && !b.Hidden? && Ordinary(m)
    ensures ScanLines(BlockLines(b), at, m) == Scan(m, BlockFound(b, at))
  {
    hide ScanLine, PiecesText, PiecesFound, ArePieces, IsProse, Blanks, IsBare, DefinitionText, Destination, Here;
    ScanOne(BlockLines(b)[0], at, m);
    match b
    case Paragraph(pieces) =>
      var line := PiecesText(pieces);
      assert line[0..] == line;
      ProseScanned(line, m);
      PiecesScanned(line, 0, pieces, m);
      ShiftedPieces(pieces, 0, at);
    case Definition(indent, words, blanks, url, rest) => DefinitionLine(indent, words, blanks, url, rest, m);
    case AngleDefinition(indent, words, blanks, url, rest) => AngleDefinitionLine(indent, words, blanks, url, rest, m);
    case Indented(text) => IndentedScanned(text, m);
  }

  lemma DefinitionLength(indent: nat, words: string)
    ensures |DefinitionText(indent, words)| == indent + |words| + 3
  {
  }

  lemma HereStart(a: string, b: string, c: string)
    ensures Here(a + b + c, 0, a) && Here(a + b + c, |a|, b)
  {
  }

  lemma DefinitionLine(indent: nat, words: string, blanks: string, url: string, rest: string, m: Mode)
    requires indent <= 3 && words != "" && ']' !in words && Blanks(blanks) && IsBare(url) && (rest == "" || rest[0] in {' ', '\t', '\r', ')'}) && Ordinary(m)
    ensures var start := indent + |words| + 3 + |blanks|;
      ScanLine(DefinitionText(indent, words) + (blanks + url) + rest, m) == Scan(m, [Range(start, start + |url|)])
  {
    hide ScanLine, Blanks, IsBare, DefinitionText, Destination, Here;
    var front := DefinitionText(indent, words);
    var line := front + (blanks + url) + rest;
    DefinitionLength(indent, words);
    HereStart(front, blanks + url, rest);
    assert rest != "" ==> line[|front| + |blanks| + |url|] == rest[0];
    BareFound(line, |front|, blanks, url);
    DefinitionScanned(line, indent, words, m, Range(|front| + |blanks|, |front| + |blanks| + |url|));
  }

  lemma AngleDefinitionLine(indent: nat, words: string, blanks: string, url: string, rest: string, m: Mode)
    requires indent <= 3 && words != "" && ']' !in words && Blanks(blanks) && url != "" && '>' !in url && Ordinary(m)
    ensures var start := indent + |words| + 4 + |blanks|;
      ScanLine(DefinitionText(indent, words) + (blanks + "<" + url + ">") + rest, m) == Scan(m, [Range(start, start + |url|)])
  {
    hide ScanLine, Blanks, DefinitionText, Destination, Here;
    var front := DefinitionText(indent, words);
    var line := front + (blanks + "<" + url + ">") + rest;
    DefinitionLength(indent, words);
    HereStart(front, blanks + "<" + url + ">", rest);
    AngleFound(line, |front|, blanks, url);
    DefinitionScanned(line, indent, words, m, Range(|front| + |blanks| + 1, |front| + |blanks| + 1 + |url|));
  }

  /** In a fenced block nothing is found until a line ends it. */
  lemma {:induction false} BodyScanned(body: seq<string>, at: nat, m: Mode)
    requires IsMarker(m.fence) && m.fenceWidth >= 3 && forall k :: 0 <= k < |body| ==> !EndsFence(body[k], m.fence, m.fenceWidth)
    ensures ScanLines(body, at, m) == Scan(m, [])
    decreases |body|
  {
    hide ClosesFence, EndsFence;
    if body != [] {
      ClosesFenceIs(body[0], m);
      BodyScanned(body[1..], at + |body[0]| + 1, m);
    }
  }

  lemma FencedScanned(b: Block, at: nat, m: Mode)
    requires IsBlock(b) && b.Fenced? && Ordinary(m)
    ensures var s := ScanLines(BlockLines(b), at, m); s.found == [] && Ordinary(s.mode)
  {
    hide ScanLine, ScanLines, EndsFence, Repeat, IsFenceLine, FenceOf;
    var first := Repeat(' ', b.indent) + Repeat(b.marker, b.width) + b.info;
    var inside := m.(fence := b.marker, fenceWidth := b.width);
    assert IsFenceLine(first, b.indent, b.marker, b.width, b.info) by { MadeFence(b.indent, b.marker, b.width, b.info); }
    FenceSeen(first, b.indent, b.marker, b.width, b.info);
    OpeningScanned(first, m);
    LastScanned(b.last, inside);
    ThreeParts(first, b.body, b.last, at, m, inside);
    assert BlockLines(b) == [first] + b.body + [b.last];
  }

  lemma MadeFence(indent: nat, marker: char, width: nat, after: string)
    requires indent <= 3
    ensures IsFenceLine(Repeat(' ', indent) + Repeat(marker, width) + after, indent, marker, width, after)
  {
  }

  lemma ThreeParts(first: string, body: seq<string>, last: string, at: nat, m: Mode, inside: Mode)
    requires ScanLine(first, m) == Scan(inside, []) && ScanLine(last, inside) == Scan(inside.(fenceWidth := 0), [])
    requires IsMarker(inside.fence) && inside.fenceWidth >= 3 && forall k :: 0 <= k < |body| ==> !EndsFence(body[k], inside.fence, inside.fenceWidth)
    ensures ScanLines([first] + body + [last], at, m) == Scan(inside.(fenceWidth := 0), [])
  {
    hide ScanLine, ScanLines, EndsFence, IsMarker;
    BodyScanned(body, at + Room([first]), inside);
    ScanOne(first, at, m);
    ScanOne(last, at + Room([first] + body), inside);
    ScanConcat([first], body, at, m);
    ScanConcat([first] + body, [last], at, m);
    ShiftConcat([], [], at);
    ShiftConcat([], [], at + Room([first] + body));
  }

  lemma OpeningScanned(line: string, m: Mode)
    requires FenceOf(line).width >= 3 && Ordinary(m)
    ensures ScanLine(line, m) == Scan(m.(fence := FenceOf(line).marker, fenceWidth := FenceOf(line).width), [])
  {
    hide FenceOf;
  }

  lemma LastScanned(line: string, m: Mode)
    requires IsMarker(m.fence) && m.fenceWidth >= 3 && EndsFence(line, m.fence, m.fenceWidth)
    ensures ScanLine(line, m) == Scan(m.(fenceWidth := 0), [])
  {
    hide ClosesFence, EndsFence;
    ClosesFenceIs(line, m);
  }

  lemma {:induction false} MiddleScanned(h: Hiding, middle: seq<string>, at: nat, m: Mode)
    requires IsHiding(h) && Ordinary(m) && forall k :: 0 <= k < |middle| ==> IsHidden(h, middle[k])
    ensures ScanLines(middle, at, Inside(h, m)) == Scan(Inside(h, m), [])
    decreases |middle|
  {
    hide ScanLine, ScanInline, IsName, Lower, IsHidden, Inside, Shift;
    ShiftConcat([], [], at);
    if middle != [] {
      InsideScanned(middle[0], h, m);
      assert middle[0][0..] == middle[0];
      StaysOpen(middle[0], 0, h, m);
      MiddleScanned(h, middle[1..], at + |middle[0]| + 1, m);
    }
  }

  lemma FirstScanned(h: Hiding, before: string, first: string, m: Mode)
    requires IsHiding(h) && Ordinary(m) && IsProse(before + OpeningText(h) + first) && IsPiece(Words(before), "") && IsHidden(h, first)
    ensures ScanLine(before + OpeningText(h) + first, m) == Scan(Inside(h, m), [])
  {
    hide ScanLine, ScanInline, IsName, Lower, IsProse, OpeningText, Inside;
    var line := before + OpeningText(h) + first;
    ProseScanned(line, m);
    HereStart(before, OpeningText(h), first);
    WordsScanned(line, 0, before, m);
    var i := |before| + |OpeningText(h)|;
    assert line[i..] == first;
    OpeningLength(h);
    Opens(line, |before|, h, m);
    StaysOpen(line, i, h, m);
  }

  lemma OpeningLength(h: Hiding)
    ensures h.InCode? ==> |OpeningText(h)| == |EndingText(h)| == h.width
  {
  }

  lemma EndScanned(h: Hiding, last: string, after: seq<Piece>, m: Mode)
    requires IsHiding(h) && Ordinary(m) && IsHidden(h, last) && ArePieces(after) && !IsIndented(last + EndingText(h) + PiecesText(after))
    requires h.InCode? && PiecesText(after) != "" ==> PiecesText(after)[0] != '`'
    ensures ScanLine(last + EndingText(h) + PiecesText(after), Inside(h, m)) == Scan(m, PiecesFound(after, |last| + |EndingText(h)|))
  {
    hide ScanLine, ScanInline, IsName, Lower, EndingText, Inside, ArePieces, PiecesText, PiecesFound, IsIndented, IsHidden;
    var text := last + EndingText(h);
    var line := text + PiecesText(after);
    InsideScanned(line, h, m);
    assert line == "" + text + PiecesText(after);
    HereStart("", text, PiecesText(after));
    OpeningLength(h);
    assert line[|text|..] == PiecesText(after);
    Ends(line, 0, h, last, m);
    PiecesScanned(line, |text|, after, m);
  }

  lemma HiddenScanned(b: Block, at: nat, m: Mode)
    requires IsBlock(b) && b.Hidden? && Ordinary(m)
    ensures ScanLines(BlockLines(b), at, m) == Scan(m, BlockFound(b, at))
  {
    hide ScanLine, ScanLines, Room, PiecesFound, PiecesText, ArePieces, IsProse, IsPiece, OpeningText, EndingText, Inside, IsHidden, IsHiding, IsIndented, Shift;
    var first, last := b.before + OpeningText(b.h) + b.first, b.last + EndingText(b.h) + PiecesText(b.after);
    var end := at + LastStart(b);
    FirstScanned(b.h, b.before, b.first, m);
    EndScanned(b.h, b.last, b.after, m);
    RoomConcat(first, b.middle);
    MiddleScanned(b.h, b.middle, at + |first| + 1, m);
    ScanOne(first, at, m);
    ScanOne(last, end, Inside(b.h, m));
    ScanConcat([first], b.middle, at, m);
    ScanConcat([first] + b.middle, [last], at, m);
    ShiftConcat([], [], at);
    ShiftedPieces(b.after, |b.last| + |EndingText(b.h)|, end);
    assert BlockLines(b) == [first] + b.middle + [last];
  }

  lemma RoomConcat(first: string, rest: seq<string>)
    ensures Room([first] + rest) == |first| + 1 + Room(rest) && Room([first]) == |first| + 1
  {
    assert ([first] + rest)[1..] == rest && [first][1..] == [];
  }

  // ---- documents

  function DocumentLines(blocks: seq<Block>): seq<string> {
    if blocks == [] then [] else BlockLines(blocks[0]) + DocumentLines(blocks[1..])
  }

  ghost predicate AreBlocks(blocks: seq<Block>) {
    forall k :: 0 <= k < |blocks| ==> IsBlock(blocks[k])
  }

  /** The destinations of a document that starts at position `at`. */
  function DocumentFound(blocks: seq<Block>, at: nat): seq<Range> {
    if blocks == [] then [] else BlockFound(blocks[0], at) + DocumentFound(blocks[1..], at + Room(BlockLines(blocks[0])))
  }

  lemma {:induction false} BlocksScanned(blocks: seq<Block>, at: nat, m: Mode)
    requires AreBlocks(blocks) && Ordinary(m)
    ensures ScanLines(DocumentLines(blocks), at, m).found == DocumentFound(blocks, at)
    decreases |blocks|
  {
    hide ScanLines, BlockLines, BlockFound, IsBlock, Ordinary;
    if blocks == [] {
      NothingScanned(at, m);
    } else {
      var b := blocks[0];
      if b.Fenced? {
        FencedScanned(b, at, m);
        FencedFindsNothing(b, at);
      } else if b.Hidden? {
        HiddenScanned(b, at, m);
      } else {
        LineScanned(b, at, m);
      }
      ScanConcat(BlockLines(b), DocumentLines(blocks[1..]), at, m);
      BlocksScanned(blocks[1..], at + Room(BlockLines(b)), ScanLines(BlockLines(b), at, m).mode);
    }
  }

  lemma NothingScanned(at: nat, m: Mode)
    ensures ScanLines([], at, m) == Scan(m, [])
  {
  }

  lemma FencedFindsNothing(b: Block, at: nat)
    requires b.Fenced?
    ensures BlockFound(b, at) == []
  {
  }

  function Joined(lines: seq<string>): string {
    if lines == [] then "" else if |lines| == 1 then lines[0] else lines[0] + "\n" + Joined(lines[1..])
  }

  /** Scanning a source scans its lines. */
  lemma {:induction false} LinesScanned(source: string, start: nat, lines: seq<string>, m: Mode)
    requires start <= |source| && lines != [] && source[start..] == Joined(lines) && forall k :: 0 <= k < |lines| ==> '\n' !in lines[k]
    ensures RangesFrom(source, start, m) == ScanLines(lines, start, m).found
    decreases |lines|
  {
    hide ScanLine, RangesFrom, ScanLines, Shift;
    var line, rest := lines[0], lines[1..];
    var end := start + |line|;
    FirstLine(source, start, lines);
    ScanLinesFirst(lines, start, m);
    if rest == [] {
      NothingScanned(end + 1, ScanLine(line, m).mode);
      if line == "" {
        RangesDone(source, start, m);
        EmptyLine(m);
        NothingShifted(start);
      } else {
        RangesUnfold(source, start, m);
        RangesDone(source, end + 1, ScanLine(line, m).mode);
      }
    } else {
      RangesUnfold(source, start, m);
      LinesScanned(source, end + 1, rest, ScanLine(line, m).mode);
    }
  }

  lemma NothingShifted(at: nat)
    ensures Shift([], at) == []
  {
  }

  lemma ScanLinesFirst(lines: seq<string>, at: nat, m: Mode)
    requires lines != []
    ensures ScanLines(lines, at, m).found == Shift(ScanLine(lines[0], m).found, at) + ScanLines(lines[1..], at + |lines[0]| + 1, ScanLine(lines[0], m).mode).found
  {
    hide ScanLine;
  }

  lemma FirstLine(source: string, start: nat, lines: seq<string>)
    requires start <= |source| && lines != [] && source[start..] == Joined(lines) && '\n' !in lines[0]
    ensures var end := start + |lines[0]|;
      && end <= |source| && source[start..end] == lines[0] && LineEnd(source, start) == end
      && (lines[1..] == [] <==> end == |source|) && (lines[1..] != [] ==> source[end + 1..] == Joined(lines[1..]))
  {
    var line, text := lines[0], source[start..];
    var end := start + |line|;
    assert lines[1..] != [] ==> text == line + "\n" + Joined(lines[1..]);
    assert text[..|line|] == line && source[start..end] == text[..|line|];
    assert lines[1..] != [] ==> text[|line|] == '\n' && text[|line| + 1..] == Joined(lines[1..]) && source[end + 1..] == text[|line| + 1..];
    TextIn(source, start, line);
    SpanIs(source, start, Except('\n'), end);
  }

  lemma TextIn(source: string, start: nat, line: string)
    requires start + |line| <= |source| && source[start..start + |line|] == line
    ensures forall k :: start <= k < start + |line| ==> source[k] in line
  {
    assert forall k :: start <= k < start + |line| ==> source[k] == line[k - start];
  }

  /** In every document the scanner finds exactly the destinations it was built with. */
  lemma DocumentScanned(blocks: seq<Block>)
    requires blocks != [] && AreBlocks(blocks)
    ensures RangesOf(Joined(DocumentLines(blocks))) == DocumentFound(blocks, 0)
  {
    hide ScanLines, RangesFrom, IsBlock;
    var source := Joined(DocumentLines(blocks));
    assert source[0..] == source;
    OneLineEach(blocks);
    LinesScanned(source, 0, DocumentLines(blocks), START);
    BlocksScanned(blocks, 0, START);
  }

  lemma {:induction false} OneLineEach(blocks: seq<Block>)
    requires AreBlocks(blocks)
    ensures forall k :: 0 <= k < |DocumentLines(blocks)| ==> '\n' !in DocumentLines(blocks)[k]
    ensures blocks != [] ==> DocumentLines(blocks) != []
    decreases |blocks|
  {
    hide BlockLines;
    if blocks != [] {
      OneLineEach(blocks[1..]);
      SomeLine(blocks[0]);
      assert IsBlock(blocks[0]);
    }
  }

  lemma SomeLine(b: Block)
    ensures BlockLines(b) != []
  {
  }

  /** And so it does after any text that leaves no construct open. */
  lemma DocumentContinued(a: string, blocks: seq<Block>)
    requires blocks != [] && AreBlocks(blocks) && Ordinary(ModeFrom(a, 0, START))
    ensures RangesOf(a + "\n" + Joined(DocumentLines(blocks))) == RangesOf(a) + DocumentFound(blocks, |a| + 1)
  {
    hide ScanLines, RangesFrom, ModeFrom, IsBlock, Ordinary;
    var b := Joined(DocumentLines(blocks));
    var whole := a + "\n" + b;
    assert whole[|a| + 1..] == b;
    OneLineEach(blocks);
    PrefixLines(a, b, 0, START);
    LinesScanned(whole, |a| + 1, DocumentLines(blocks), ModeFrom(a, 0, START));
    BlocksScanned(blocks, |a| + 1, ModeFrom(a, 0, START));
  }

  // ---- the plainest cases

  lemma PlainIs(s: string)
    requires Plain(s)
    ensures IsLabel(s) && IsBare(s) && '\n' !in s && ']' !in s && '`' !in s && '>' !in s && '"' !in s
    ensures forall k :: 0 <= k < |s| ==> IsWord(s[k]) && s[k] != ':'
  {
    forall k | 0 <= k < |s|
      ensures PlainChar(s[k])
    {
    }
  }

  lemma OneParagraph(piece: Piece, line: string)
    requires PieceText(piece) == line && IsPiece(piece, "") && IsProse(line) && '\n' !in line
    ensures RangesOf(line) == PieceFound(piece, 0)
  {
    hide PieceText, PieceFound, IsPiece, IsProse, RangesOf;
    var b := Paragraph([piece]);
    OnePiece(piece);
    OneBlock(b, line);
  }

  lemma OnePiece(piece: Piece)
    ensures PiecesText([piece]) == PieceText(piece) && PiecesFound([piece], 0) == PieceFound(piece, 0)
    ensures ArePieces([piece]) <==> IsPiece(piece, "")
  {
    hide PieceText, PieceFound, IsPiece;
    assert [piece][1..] == [];
  }

  lemma OneBlock(b: Block, line: string)
    requires IsBlock(b) && BlockLines(b) == [line]
    ensures RangesOf(line) == BlockFound(b, 0)
  {
    hide IsBlock, BlockLines, BlockFound, RangesOf;
    assert [b][1..] == [];
    assert DocumentLines([b]) == [line];
    DocumentScanned([b]);
  }

  lemma PlainLink(l: string, d: string)
    requires Plain(l) && Plain(d)
    ensures RangesOf("[" + l + "](" + d + ")") == [Range(|l| + 3, |l| + 3 + |d|)]
  {
    hide RangesOf, Plain, IsLabel, IsBare, IsWord;
    PlainIs(l);
    PlainIs(d);
    var line := "[" + l + "](" + d + ")";
    assert Label(l, 0) == "[" + l;
    assert PieceText(BareLink(l, 0, "", d, ')')) == line;
    PlainProse(l, "](" + d + ")");
    OneParagraph(BareLink(l, 0, "", d, ')'), line);
  }

  /** Rewriting a link replaces its destination. */
  lemma PlainRewrite(l: string, d: string, text: string)
    requires Plain(l) && Plain(d)
    ensures var link := "[" + l + "](" + d + ")";
      |RangesOf(link)| == 1 && Destinations(link) == [d] && WithDestinations(link, [text]) == "[" + l + "](" + text + ")"
  {
    hide RangesOf, Plain;
    var front := "[" + l + "](";
    var link := front + d + ")";
    PlainLink(l, d);
    OneChanged(link, 0, text);
    assert link[|front|..|front| + |d|] == d && link[..|front|] == front && link[|front| + |d|..] == ")";
    assert Destinations(link) == [d];
    assert Destinations(link)[0 := text] == [text];
    assert front + text + ")" == "[" + l + "](" + text + ")";
  }

  /** A line that starts with a bracket and a plain text is prose if nothing after it closes a definition. */
  lemma PlainProse(l: string, rest: string)
    requires Plain(l) && |rest| > 0 && forall k :: 0 <= k < |rest| - 1 ==> !(rest[k] == ']' && rest[k + 1] == ':')
    ensures IsProse("[" + l + rest)
  {
    hide Plain, IsLabel, IsBare, IsWord;
    PlainIs(l);
    var line := "[" + l + rest;
    forall k | 0 <= k < |line| - 1
      ensures !(line[k] == ']' && line[k + 1] == ':')
    {
      if k > |l| {
        assert line[k] == rest[k - |l| - 1] && line[k + 1] == rest[k - |l|];
      } else if k > 0 {
        assert line[k] == l[k - 1] && l[k - 1] in l;
      }
    }
    assert line[0] == '[' && "```"[0] == '`' && "~~~"[0] == '~';
  }

  /** Pieces without a destination. */
  lemma NothingIn(first: Piece, second: Piece, line: string)
    requires PieceText(first) + PieceText(second) == line && IsPiece(first, PieceText(second)) && IsPiece(second, "") && IsProse(line) && '\n' !in line
    requires PieceFound(first, 0) == [] && PieceFound(second, |PieceText(first)|) == []
    ensures RangesOf(line) == []
  {
    hide PieceText, PieceFound, IsPiece, IsProse, RangesOf;
    var pieces := [first, second];
    OnePiece(second);
    assert pieces[1..] == [second] && [second][1..] == [];
    assert PiecesFound([second], |PieceText(first)|) == [];
    OneBlock(Paragraph(pieces), line);
  }

  lemma EscapedLink(l: string, d: string)
    requires Plain(l) && Plain(d)
    ensures RangesOf("[" + l + "\\](" + d + ")") == []
  {
    hide RangesOf, Plain, IsLabel, IsBare;
    PlainIs(l);
    PlainIs(d);
    var line := "[" + l + "\\](" + d + ")";
    assert Label(l, 1) == "[" + l + "\\";
    PlainWords(d);
    PlainProse(l, "\\](" + d + ")");
    NothingIn(Bracket(l, 1), Words("(" + d + ")"), line);
  }

  lemma PlainWords(d: string)
    requires Plain(d)
    ensures IsPiece(Words("(" + d + ")"), "")
  {
    hide Plain;
    PlainIs(d);
    var text := "(" + d + ")";
    forall k | 0 <= k < |text|
      ensures IsWord(text[k])
    {
      if 0 < k <= |d| {
        assert text[k] == d[k - 1];
      }
    }
  }

  lemma PlainDefinition(l: string, d: string)
    requires Plain(l) && Plain(d)
    ensures RangesOf("[" + l + "]: " + d) == [Range(|l| + 4, |l| + 4 + |d|)]
  {
    hide RangesOf, Plain, IsLabel, IsBare, IsWord;
    PlainIs(l);
    PlainIs(d);
    var b := Definition(0, l, " ", d, "");
    var line := "[" + l + "]: " + d;
    assert BlockLines(b)[0] == line;
    OneBlock(b, line);
  }

  lemma PlainImage(d: string)
    requires Plain(d)
    ensures RangesOf("<img src=\"" + d + "\">") == [Range(10, 10 + |d|)]
    ensures RangesOf("<img href=\"" + d + "\">") == []
  {
    hide *;
    PlainTag("img", "src", d);
    PlainTag("img", "href", d);
    TagTargets(d);
    assert "<" + "img" + " " + "src" + "=\"" == "<img src=\"" && "<" + "img" + " " + "href" + "=\"" == "<img href=\"";
  }

  lemma PlainAnchor(d: string)
    requires Plain(d)
    ensures RangesOf("<a href=\"" + d + "\">") == [Range(9, 9 + |d|)]
    ensures RangesOf("<a src=\"" + d + "\">") == []
  {
    hide *;
    PlainTag("a", "href", d);
    PlainTag("a", "src", d);
    TagTargets(d);
    assert "<" + "a" + " " + "href" + "=\"" == "<a href=\"" && "<" + "a" + " " + "src" + "=\"" == "<a src=\"";
  }

  lemma TagTargets(d: string)
    requires Plain(d)
    ensures AttributeTarget(Quoted("src", '"', d), |"img"| + 1, Lower("img")) == [Range(10, 10 + |d|)]
    ensures AttributeTarget(Quoted("href", '"', d), |"img"| + 1, Lower("img")) == []
    ensures AttributeTarget(Quoted("href", '"', d), |"a"| + 1, Lower("a")) == [Range(9, 9 + |d|)]
    ensures AttributeTarget(Quoted("src", '"', d), |"a"| + 1, Lower("a")) == []
  {
    assert Lower("img") == "img" && Lower("a") == "a" && Lower("src") == "src" && Lower("href") == "href";
  }

  /** An element with one quoted attribute. */
  lemma PlainTag(name: string, attribute: string, d: string)
    requires Plain(d) && name in {"img", "a"} && attribute in {"src", "href"}
    ensures RangesOf("<" + name + " " + attribute + "=\"" + d + "\">") == AttributeTarget(Quoted(attribute, '"', d), |name| + 1, Lower(name))
  {
    hide *;
    var a := Quoted(attribute, '"', d);
    TagLine(name, attribute, d);
    PlainElement(name, attribute, d);
    ElementIs(name, a);
    OneParagraph(Element(name, [a], false), "<" + name + " " + attribute + "=\"" + d + "\">");
  }

  lemma ElementIs(name: string, a: Attribute)
    ensures PieceText(Element(name, [a], false)) == TagText(name, [a], false)
    ensures PieceFound(Element(name, [a], false), 0) == AttributeTarget(a, |name| + 1, Lower(name))
  {
    hide TagText, Lower, AttributeTargets;
    OneAttribute(a, |name| + 1, Lower(name));
  }

  lemma TagLine(name: string, attribute: string, d: string)
    ensures TagText(name, [Quoted(attribute, '"', d)], false) == "<" + name + " " + attribute + "=\"" + d + "\">"
  {
    var a := Quoted(attribute, '"', d);
    assert [a][1..] == [];
    assert AttributesText([a]) == AttributeText(a);
    assert AttributeText(a) == " " + attribute + "=\"" + d + "\"";
    hide AttributeText, AttributesText;
    assert "<" + name + (" " + attribute + "=\"" + d + "\"") + "" + ">" == "<" + name + " " + attribute + "=\"" + d + "\">";
  }

  lemma PlainElement(name: string, attribute: string, d: string)
    requires Plain(d) && name in {"img", "a"} && attribute in {"src", "href"}
    ensures IsPiece(Element(name, [Quoted(attribute, '"', d)], false), "")
    ensures var line := "<" + name + " " + attribute + "=\"" + d + "\">"; IsProse(line) && '\n' !in line
  {
    hide Plain;
    PlainIs(d);
    var line := "<" + name + " " + attribute + "=\"" + d + "\">";
    assert Lower("img") == "img" && Lower("a") == "a";
    assert line[0] == '<' && "```"[0] == '`' && "~~~"[0] == '~';
  }

  lemma OneAttribute(a: Attribute, at: nat, element: string)
    ensures AttributesText([a]) == AttributeText(a) && AttributeTargets([a], at, element) == AttributeTarget(a, at, element)
  {
    hide AttributeText, AttributeTarget;
    assert [a][1..] == [];
  }

  lemma LinkInCodeSpan(l: string, d: string)
    requires Plain(l) && Plain(d)
    ensures RangesOf("`[" + l + "](" + d + ")`") == []
  {
    hide RangesOf, Plain, IsLabel, IsBare;
    PlainIs(l);
    PlainIs(d);
    var text := "[" + l + "](" + d + ")";
    var line := "`[" + l + "](" + d + ")`";
    assert Repeat('`', 1) == "`";
    assert CodeSpan(1, text) == line;
    assert line[1] == '[' && line[0] == '`' && "```"[1] == '`' && "~~~"[0] == '~';
    OneParagraph(Code(1, text), line);
  }

  /** Between two lines of three backticks. */
  lemma LinkInFence(l: string, d: string)
    requires Plain(l) && Plain(d)
    ensures RangesOf("```\n[" + l + "](" + d + ")\n```") == []
  {
    hide RangesOf, Plain, IsLabel, IsBare, EndsFence;
    PlainIs(l);
    PlainIs(d);
    var text := "[" + l + "](" + d + ")";
    var b := Fenced(0, '`', 3, "", [text], "```");
    var lines := BlockLines(b);
    assert Repeat(' ', 0) + Repeat('`', 3) + "" == "```";
    assert lines == ["```", text, "```"] && [b][1..] == [];
    JoinedThree("```", text, "```");
    assert "```\n[" + l + "](" + d + ")\n```" == Joined(lines);
    LinkEndsNoFence(text);
    FenceEnds();
    assert DocumentLines([b]) == lines;
    DocumentScanned([b]);
  }

  lemma JoinedThree(a: string, b: string, c: string)
    ensures Joined([a, b, c]) == a + "\n" + (b + "\n" + c)
  {
    assert [a, b, c][1..] == [b, c] && [b, c][1..] == [c];
    assert Joined([b, c]) == b + "\n" + Joined([c]);
  }

  lemma LinkEndsNoFence(text: string)
    requires text != "" && text[0] == '['
    ensures !EndsFence(text, '`', 3)
  {
    if indent: nat, n: nat, after :| n >= 3 && IsFenceLine(text, indent, '`', n, after) && AllWhite(after) {
      FenceStarts(text, indent, n, after);
    }
  }

  lemma FenceStarts(text: string, indent: nat, n: nat, after: string)
    requires n >= 3 && IsFenceLine(text, indent, '`', n, after)
    ensures text != "" && text[0] in {' ', '`'}
  {
    var front := Repeat(' ', indent) + Repeat('`', n);
    assert text[0] == front[0];
  }

  lemma FenceEnds()
    ensures EndsFence("```", '`', 3)
  {
    assert Repeat(' ', 0) + Repeat('`', 3) + "" == "```";
    assert IsFenceLine("```", 0, '`', 3, "");
  }
}
