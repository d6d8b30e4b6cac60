/**
 What the Markdown URL scanner recognizes, as functions of one line and the state that the
 scanner carries from line to line. Positions are relative to the line.
 */
module UrlSyntax {
  import opened Options
  import opened TextScan

  datatype Range = Range(start: nat, end: nat)

  /** The scanner fields that survive from one line to the next. */
  datatype Mode = Mode(fence: char, fenceWidth: nat, codeWidth: nat, inComment: bool, inHtmlCode: bool)

  const START := Mode('\0', 0, 0, false, false)

  function ContentIndent(line: string): (r: Option<nat>)
    ensures r.Some? ==> r.value < |line| && r.value <= 3 && line[r.value] != ' '
  {
    var indent := Span(line, 0, Only(' '));
    SpanRun(line, 0, Only(' '));
    if indent <= 3 && indent < |line| then Some(indent) else None
  }

  datatype FenceMark = FenceMark(marker: char, width: nat, after: nat)

  /** A fence of at least three backticks or tildes, indented by at most three spaces. */
  function FenceOf(line: string): (f: FenceMark)
    ensures f.after <= |line|
    ensures f.width == 0 || f.width >= 3
  {
    match ContentIndent(line)
    case None => FenceMark('\0', 0, 0)
    case Some(indent) =>
      var marker := line[indent];
      var end := Span(line, indent, Only(marker));
      if (marker == '`' || marker == '~') && end - indent >= 3
      then FenceMark(marker, end - indent, end)
      else FenceMark('\0', 0, 0)
  }

  predicate ClosesFence(line: string, m: Mode) {
    var f := FenceOf(line);
    f.marker == m.fence && f.width >= m.fenceWidth && IsBlank(line[f.after..])
  }

  predicate OpensFence(line: string, m: Mode) {
    FenceOf(line).width != 0 && m.codeWidth == 0 && !m.inComment && !m.inHtmlCode
  }

  predicate IsIndentedCode(line: string) {
    "\t" <= line || "    " <= line
  }

  /** An angle-wrapped or bare destination after a link delimiter. */
  function Destination(line: string, start: nat): (r: Option<Range>)
    requires start <= |line|
    ensures r.Some? ==> start <= r.value.start < r.value.end <= |line|
  {
    var p := Span(line, start, Blank);
    if p == |line| then None
    else if line[p] == '<' then
      var e := Span(line, p + 1, Except('>'));
      if e == |line| || e == p + 1 then None else Some(Range(p + 1, e))
    else
      var e := Span(line, p, BareDestination);
      if e == p then None else Some(Range(p, e))
  }

  /** A link reference definition at the start of a line. */
  function Definition(line: string, m: Mode): (r: Option<Range>)
    ensures r.Some? ==> r.value.start < r.value.end <= |line|
  {
    if m.codeWidth != 0 || m.inComment || m.inHtmlCode then None else
    match ContentIndent(line)
    case None => None
    case Some(indent) =>
      if line[indent] != '[' then None else
      match IndexOf(line, indent + 1, "]:")
      case None => None
      case Some(closing) =>
        if closing == indent + 1 then None else Destination(line, closing + 2)
  }

  /** The destination of an inline link whose label closes at `i`. */
  function Link(line: string, i: nat): (r: Option<Range>)
    requires i < |line|
    ensures r.Some? ==> i + 2 <= r.value.start < r.value.end <= |line|
  {
    if line[i] == ']' && i + 1 < |line| && line[i + 1] == '(' && '[' in line[..i] && Backslashes(line, i) % 2 == 0
    then Destination(line, i + 2)
    else None
  }

  /** The first `>` at or after `i` outside quotes; `quote` is the open quote, or NUL. */
  function TagEnd(line: string, i: nat, quote: char): (r: Option<nat>)
    requires i <= |line|
    ensures r.Some? ==> i <= r.value < |line| && line[r.value] == '>'
    decreases |line| - i
  {
    if i == |line| then None
    else if quote != '\0' && line[i] == quote then TagEnd(line, i + 1, '\0')
    else if quote == '\0' && IsQuote(line[i]) then TagEnd(line, i + 1, line[i])
    else if quote == '\0' && line[i] == '>' then Some(i)
    else TagEnd(line, i + 1, quote)
  }

  predicate IsCodeElement(name: string) {
    name == "code" || name == "pre"
  }

  predicate IsResourceElement(name: string) {
    name == "img" || name == "a"
  }

  predicate IsResourceAttribute(element: string, attribute: string) {
    (element == "img" && attribute == "src") || (element == "a" && attribute == "href")
  }

  predicate IsSelfClosing(attributes: string) {
    var t := TrimRight(attributes);
    t != "" && t[|t| - 1] == '/'
  }

  datatype AttributeValue = AttributeValue(start: nat, end: nat, next: nat)

  /** The value after an attribute's `=` and the position where scanning goes on. */
  function ValueAt(tag: string, p: nat): (v: AttributeValue)
    requires p <= |tag|
    ensures p <= v.start <= v.end <= v.next <= |tag|
  {
    var q := Span(tag, p, Blank);
    if q < |tag| && IsQuote(tag[q]) then
      var e := Span(tag, q + 1, Except(tag[q]));
      AttributeValue(q + 1, e, if e < |tag| then e + 1 else e)
    else
      var e := Span(tag, q, BareValue);
      AttributeValue(q, e, e)
  }

  /** One attribute, or one character that starts none: where scanning goes on and what it found. */
  datatype AttributeStep = AttributeStep(next: nat, found: seq<Range>)

  function AttributeAt(tag: string, p: nat, element: string): (s: AttributeStep)
    requires p < |tag|
    ensures p < s.next <= |tag|
  {
    if !IsNameByte(tag[p]) then AttributeStep(p + 1, []) else NamedAttribute(tag, p, Span(tag, p, Name), element)
  }

  /** The attribute named `tag[p..q]`. */
  function NamedAttribute(tag: string, p: nat, q: nat, element: string): (s: AttributeStep)
    requires p <= q <= |tag|
    ensures q <= s.next <= |tag|
  {
    var eq := Span(tag, q, Blank);
    if eq == |tag| || tag[eq] != '=' then AttributeStep(eq, [])
    else FoundValue(ValueAt(tag, eq + 1), IsResourceAttribute(element, Lower(tag[p..q])))
  }

  function FoundValue(v: AttributeValue, wanted: bool): AttributeStep {
    if v.start == v.end || !wanted then AttributeStep(v.next, []) else AttributeStep(v.next, [Range(v.start, v.end)])
  }

  /** The resource-bearing attribute values of the tag text `tag` from position `p`. */
  function AttributeRanges(tag: string, p: nat, element: string): (rs: seq<Range>)
    requires p <= |tag|
    decreases |tag| - p
  {
    if p == |tag| then []
    else
      var s := AttributeAt(tag, p, element);
      s.found + AttributeRanges(tag, s.next, element)
  }

  /** One move of the inline scanner: where it goes on, its new state and what it found. */
  datatype Step = Step(next: nat, mode: Mode, found: seq<Range>)

  /** A raw HTML tag at `i`, when there is one. */
  function Tag(line: string, i: nat, m: Mode): (r: Option<Step>)
    requires i < |line|
    ensures r.Some? ==> i < r.value.next <= |line|
  {
    if line[i] != '<' then None else
    match TagEnd(line, i + 1, '\0')
    case None => None
    case Some(end) => NamedTag(line[..end], i, m)
  }

  /** The tag that opens at `i` and whose `>` follows `tag`. */
  function NamedTag(tag: string, i: nat, m: Mode): (r: Option<Step>)
    requires i < |tag|
    ensures r.Some? ==> r.value.next == |tag| + 1
  {
    var closing := i + 1 < |tag| && tag[i + 1] == '/';
    var nameStart := if closing then i + 2 else i + 1;
    var nameEnd := Span(tag, nameStart, Name);
    if nameEnd == nameStart then None
    else Some(TagBody(tag, nameEnd, Lower(tag[nameStart..nameEnd]), closing, m))
  }

  function TagBody(tag: string, nameEnd: nat, name: string, closing: bool, m: Mode): (s: Step)
    requires nameEnd <= |tag|
    ensures s.next == |tag| + 1
  {
    var code := if IsCodeElement(name) then !closing && !IsSelfClosing(tag[nameEnd..]) else m.inHtmlCode;
    var found := if code || closing || !IsResourceElement(name) then [] else AttributeRanges(tag, nameEnd, name);
    Step(|tag| + 1, m.(inHtmlCode := code), found)
  }

  function CommentStep(line: string, i: nat, m: Mode): (s: Step)
    requires i < |line|
    ensures i < s.next <= |line|
  {
    match IndexOf(line, i, "-->")
    case None => Step(|line|, m, [])
    case Some(end) => Step(end + 3, m.(inComment := false), [])
  }

  /** A run of backticks opens a code span or closes the open one when their widths agree. */
  function BacktickStep(line: string, i: nat, m: Mode): (s: Step)
    requires i < |line| && line[i] == '`'
    ensures i < s.next <= |line|
  {
    var end := Span(line, i, Only('`'));
    var width := end - i;
    Step(end, m.(codeWidth := if m.codeWidth == 0 then width else if m.codeWidth == width then 0 else m.codeWidth), [])
  }

  /** A tag, a link, or one ordinary character outside comments and code spans. */
  function ElementStep(line: string, i: nat, m: Mode): (s: Step)
    requires i < |line|
    ensures i < s.next <= |line|
  {
    match Tag(line, i, m)
    case Some(step) => step
    case None =>
      if m.inHtmlCode then Step(i + 1, m, []) else
      match Link(line, i)
      case Some(location) => Step(location.end, m, [location])
      case None => Step(i + 1, m, [])
  }

  function InlineStep(line: string, i: nat, m: Mode): (s: Step)
    requires i < |line|
    ensures i < s.next <= |line|
  {
    if m.inComment then CommentStep(line, i, m)
    else if m.codeWidth == 0 && StartsAt(line, i, "<!--") then Step(i + 4, m.(inComment := true), [])
    else if line[i] == '`' then BacktickStep(line, i, m)
    else if m.codeWidth != 0 then Step(i + 1, m, [])
    else ElementStep(line, i, m)
  }

  datatype Scan = Scan(mode: Mode, found: seq<Range>)

  function ScanInline(line: string, i: nat, m: Mode): (r: Scan)
    requires i <= |line|
    decreases |line| - i
  {
    if i == |line| then Scan(m, [])
    else
      var s := InlineStep(line, i, m);
      var rest := ScanInline(line, s.next, s.mode);
      Scan(rest.mode, s.found + rest.found)
  }

  function ScanLine(line: string, m: Mode): (r: Scan) {
    if m.fenceWidth != 0 then
      Scan(if ClosesFence(line, m) then m.(fenceWidth := 0) else m, [])
    else if OpensFence(line, m) then
      Scan(m.(fence := FenceOf(line).marker, fenceWidth := FenceOf(line).width), [])
    else if IsIndentedCode(line) then
      Scan(m, [])
    else
      match Definition(line, m)
      case Some(location) => Scan(m, [location])
      case None => ScanInline(line, 0, m)
  }

  /** Moves line-relative ranges to their place in the source. */
  function Shift(rs: seq<Range>, offset: nat): (r: seq<Range>)
    ensures |r| == |rs|
    ensures forall k :: 0 <= k < |rs| ==> r[k] == Range(rs[k].start + offset, rs[k].end + offset)
  {
    seq(|rs|, k requires 0 <= k < |rs| => Range(rs[k].start + offset, rs[k].end + offset))
  }

  function LineEnd(source: string, start: nat): (end: nat)
    requires start <= |source|
    ensures start <= end <= |source|
  {
    Span(source, start, Except('\n'))
  }

  /** The destinations of the lines from `start` on, scanned from state `m`. */
  function RangesFrom(source: string, start: nat, m: Mode): (rs: seq<Range>)
    decreases |source| - start
  {
    if start >= |source| then []
    else
      var end := LineEnd(source, start);
      var scan := ScanLine(source[start..end], m);
      Shift(scan.found, start) + RangesFrom(source, end + 1, scan.mode)
  }

  function RangesOf(source: string): seq<Range> {
    RangesFrom(source, 0, START)
  }
}
