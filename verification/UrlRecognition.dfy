/**
 What the scanner recognizes: every kind of destination, and everything that hides one, stated by the
 characters of a line.
 */
module UrlRecognition {
  import opened Options
  import opened TextScan
  import opened UrlSyntax
  import opened UrlSubstitution

  /** `text` stands in the line at position `i`. */
  predicate Here(line: string, i: nat, text: string) {
    i + |text| <= |line| && forall k :: i <= k < i + |text| ==> line[k] == text[k - i]
  }

  lemma HereSplit(line: string, i: nat, a: string, b: string)
    requires Here(line, i, a + b)
    ensures Here(line, i, a) && Here(line, i + |a|, b)
  {
    assert forall k :: i <= k < i + |a| ==> line[k] == (a + b)[k - i];
    assert forall k :: i + |a| <= k < i + |a| + |b| ==> line[k] == (a + b)[k - i];
  }

  lemma HereSlice(line: string, i: nat, text: string)
    requires Here(line, i, text)
    ensures line[i..i + |text|] == text
  {
  }

  /** Neither code nor a comment is open. */
  predicate Open(m: Mode) {
    m.codeWidth == 0 && !m.inComment
  }

  function Found(found: seq<Range>, rest: Scan): Scan {
    Scan(rest.mode, found + rest.found)
  }

  lemma ScanStep(line: string, i: nat, m: Mode)
    requires i < |line|
    ensures var s := InlineStep(line, i, m); ScanInline(line, i, m) == Found(s.found, ScanInline(line, s.next, s.mode))
  {
    hide InlineStep;
  }

  // ---- ordinary text

  predicate IsWord(c: char) {
    c != '<' && c != '`' && c != ']'
  }

  lemma {:induction false} SkipWords(line: string, i: nat, j: nat, m: Mode)
    requires i <= j <= |line| && Open(m) && forall k :: i <= k < j ==> IsWord(line[k])
    ensures ScanInline(line, i, m) == ScanInline(line, j, m)
    decreases j - i
  {
    hide ScanInline;
    if i < j {
      ScanStep(line, i, m);
      WordStep(line, i, m);
      SkipWords(line, i + 1, j, m);
    }
  }

  lemma WordStep(line: string, i: nat, m: Mode)
    requires i < |line| && Open(m) && IsWord(line[i])
    ensures InlineStep(line, i, m) == Step(i + 1, m, [])
  {
  }

  // ---- destinations

  /** A bare destination ends at a blank, a carriage return, a parenthesis, or the end of the line. */
  predicate IsBare(text: string) {
    text != "" && text[0] != '<' && forall k :: 0 <= k < |text| ==> text[k] !in {' ', '\t', '\r', ')'}
  }

  predicate Blanks(text: string) {
    forall k :: 0 <= k < |text| ==> text[k] == ' ' || text[k] == '\t'
  }

  predicate EndsBare(line: string, i: nat) {
    i == |line| || (i < |line| && line[i] in {' ', '\t', '\r', ')'})
  }

  lemma BareFound(line: string, i: nat, blanks: string, text: string)
    requires Here(line, i, blanks + text) && Blanks(blanks) && IsBare(text) && EndsBare(line, i + |blanks| + |text|)
    ensures Destination(line, i) == Some(Range(i + |blanks|, i + |blanks| + |text|))
  {
    HereSplit(line, i, blanks, text);
    var p := i + |blanks|;
    assert line[p] == text[0];
    SpanIs(line, i, Blank, p);
    forall k | p <= k < p + |text|
      ensures Belongs(line[k], BareDestination)
    {
      assert line[k] == text[k - p];
    }
    SpanIs(line, p, BareDestination, p + |text|);
  }

  lemma AngleFound(line: string, i: nat, blanks: string, text: string)
    requires Here(line, i, blanks + "<" + text + ">") && Blanks(blanks) && text != "" && '>' !in text
    ensures Destination(line, i) == Some(Range(i + |blanks| + 1, i + |blanks| + 1 + |text|))
  {
    HereSplit(line, i, blanks + "<" + text, ">");
    HereSplit(line, i, blanks + "<", text);
    HereSplit(line, i, blanks, "<");
    var p := i + |blanks|;
    assert line[p] == '<' && line[p + 1 + |text|] == '>';
    SpanIs(line, i, Blank, p);
    forall k | p + 1 <= k < p + 1 + |text|
      ensures Belongs(line[k], Except('>'))
    {
      assert line[k] == text[k - p - 1] && text[k - p - 1] in text;
    }
    SpanIs(line, p + 1, Except('>'), p + 1 + |text|);
  }

  // ---- inline links

  function Repeat(c: char, n: nat): (s: string)
    ensures |s| == n && forall k :: 0 <= k < n ==> s[k] == c
  {
    seq(n, _ => c)
  }

  lemma {:induction false} BackslashesAre(line: string, i: nat, n: nat)
    requires n <= i <= |line| && (forall k :: i - n <= k < i ==> line[k] == '\\') && (n < i ==> line[i - n - 1] != '\\')
    ensures Backslashes(line, i) == n
    decreases n
  {
    if n > 0 {
      BackslashesAre(line, i - 1, n - 1);
    }
  }

  /** The label of a link, with the backslashes in front of its closing bracket. */
  predicate IsLabel(words: string) {
    (forall k :: 0 <= k < |words| ==> IsWord(words[k])) && (words != "" ==> words[|words| - 1] != '\\')
  }

  function Label(words: string, slashes: nat): string {
    "[" + words + Repeat('\\', slashes)
  }

  /** Up to its closing bracket a label is ordinary text. */
  lemma LabelSkipped(line: string, i: nat, words: string, slashes: nat, m: Mode)
    requires Here(line, i, Label(words, slashes)) && IsLabel(words) && Open(m)
    ensures var c := i + 1 + |words| + slashes;
      c <= |line| && ScanInline(line, i, m) == ScanInline(line, c, m) && '[' in line[..c] && Backslashes(line, c) == slashes
  {
    hide ScanInline;
    var c := i + 1 + |words| + slashes;
    var text := Label(words, slashes);
    forall k | i <= k < c
      ensures line[k] == text[k - i] && IsWord(line[k])
    {
    }
    SkipWords(line, i, c, m);
    assert line[..c][i] == '[';
    assert line[c - slashes - 1] == text[|words|];
    BackslashesAre(line, c, slashes);
  }

  /** A link whose closing bracket is not escaped. */
  lemma LinkFound(line: string, i: nat, words: string, slashes: nat, m: Mode, d: Range)
    requires Here(line, i, Label(words, slashes) + "](") && IsLabel(words) && slashes % 2 == 0 && Open(m) && !m.inHtmlCode
    requires i + 3 + |words| + slashes <= |line| && Destination(line, i + 3 + |words| + slashes) == Some(d)
    ensures ScanInline(line, i, m) == Found([d], ScanInline(line, d.end, m))
  {
    hide ScanInline, Destination, Backslashes;
    HereSplit(line, i, Label(words, slashes), "](");
    LabelSkipped(line, i, words, slashes, m);
    var c := i + 1 + |words| + slashes;
    assert line[c] == ']' && line[c + 1] == '(';
    ScanStep(line, c, m);
  }

  /** A closing bracket that is escaped, or that no parenthesis follows, is ordinary text. */
  lemma BracketSkipped(line: string, i: nat, words: string, slashes: nat, m: Mode)
    requires Here(line, i, Label(words, slashes) + "]") && IsLabel(words) && Open(m)
    requires slashes % 2 == 1 || i + 2 + |words| + slashes == |line| || line[i + 2 + |words| + slashes] != '('
    ensures ScanInline(line, i, m) == ScanInline(line, i + 2 + |words| + slashes, m)
  {
    hide ScanInline, Destination, Backslashes;
    HereSplit(line, i, Label(words, slashes), "]");
    LabelSkipped(line, i, words, slashes, m);
    var c := i + 1 + |words| + slashes;
    assert line[c] == ']';
    ScanStep(line, c, m);
  }

  // ---- what hides destinations

  lemma {:induction false} SkipCode(line: string, i: nat, j: nat, m: Mode)
    requires i <= j <= |line| && m.codeWidth != 0 && !m.inComment && forall k :: i <= k < j ==> line[k] != '`'
    ensures ScanInline(line, i, m) == ScanInline(line, j, m)
    decreases j - i
  {
    hide ScanInline;
    if i < j {
      ScanStep(line, i, m);
      SkipCode(line, i + 1, j, m);
    }
  }

  lemma BacktickRun(line: string, i: nat, width: nat, m: Mode)
    requires width > 0 && Here(line, i, Repeat('`', width)) && (i + width < |line| ==> line[i + width] != '`') && !m.inComment
    ensures ScanInline(line, i, m) ==
      ScanInline(line, i + width, m.(codeWidth := if m.codeWidth == 0 then width else if m.codeWidth == width then 0 else m.codeWidth))
  {
    hide ScanInline;
    assert line[i] == '`';
    SpanIs(line, i, Only('`'), i + width);
    ScanStep(line, i, m);
  }

  function CodeSpan(width: nat, text: string): string {
    Repeat('`', width) + text + Repeat('`', width)
  }

  /** Between two runs of as many backticks nothing is found. */
  lemma CodeSpanSkipped(line: string, i: nat, width: nat, text: string, m: Mode)
    requires width > 0 && Here(line, i, CodeSpan(width, text)) && text != "" && '`' !in text && Open(m)
    requires var j := i + 2 * width + |text|; j < |line| ==> line[j] != '`'
    ensures ScanInline(line, i, m) == ScanInline(line, i + 2 * width + |text|, m)
  {
    hide ScanInline, Repeat;
    HereSplit(line, i, Repeat('`', width) + text, Repeat('`', width));
    HereSplit(line, i, Repeat('`', width), text);
    var j := i + width;
    assert line[j] == text[0] && text[0] in text;
    BacktickRun(line, i, width, m);
    forall k | j <= k < j + |text|
      ensures line[k] != '`'
    {
      assert line[k] == text[k - j] && text[k - j] in text;
    }
    SkipCode(line, j, j + |text|, m.(codeWidth := width));
    BacktickRun(line, j + |text|, width, m.(codeWidth := width));
  }

  lemma StartsHere(s: string, i: nat, target: string)
    requires i <= |s|
    ensures StartsAt(s, i, target) <==> Here(s, i, target)
  {
    if StartsAt(s, i, target) {
      assert forall k :: i <= k < i + |target| ==> s[k] == s[i..][k - i] == target[k - i];
    }
    if Here(s, i, target) {
      assert s[i..][..|target|] == target;
    }
  }

  lemma {:induction false} FirstAt(s: string, i: nat, target: string, j: nat)
    requires i <= j && Here(s, j, target) && target != "" && forall k :: i <= k < j + |target| - 1 ==> s[k] != target[|target| - 1]
    ensures IndexOf(s, i, target) == Some(j)
    decreases j - i
  {
    hide StartsAt;
    StartsHere(s, i, target);
    if i < j {
      assert s[i + |target| - 1] != target[|target| - 1];
      FirstAt(s, i + 1, target, j);
    }
  }

  /** Nothing is found in a comment. */
  lemma CommentSkipped(line: string, i: nat, text: string, m: Mode)
    requires Here(line, i, "<!--" + text + "-->") && '>' !in text && Open(m)
    ensures ScanInline(line, i, m) == ScanInline(line, i + 7 + |text|, m)
  {
    hide ScanInline, IndexOf;
    HereSplit(line, i, "<!--" + text, "-->");
    HereSplit(line, i, "<!--", text);
    var j := i + 4;
    HereSlice(line, i, "<!--");
    assert line[i..][..4] == "<!--";
    assert StartsAt(line, i, "<!--");
    ScanStep(line, i, m);
    forall k | j <= k < j + |text| + 2
      ensures line[k] != '>'
    {
      if k < j + |text| {
        assert line[k] == text[k - j] && text[k - j] in text;
      } else {
        assert line[k] == "-->"[k - j - |text|];
      }
    }
    FirstAt(line, j, "-->", j + |text|);
    ScanStep(line, j, m.(inComment := true));
  }

  // ---- tags

  /** An attribute with a quoted value, with an unquoted one, or with none. */
  datatype Attribute = Quoted(name: string, quote: char, value: string) | Unquoted(name: string, value: string) | Valueless(name: string)

  predicate IsName(s: string) {
    s != "" && forall k :: 0 <= k < |s| ==> IsNameByte(s[k])
  }

  predicate IsAttribute(a: Attribute) {
    && IsName(a.name)
    && match a
       case Quoted(_, quote, value) => (quote == '"' || quote == '\'') && quote !in value
       case Unquoted(_, value) => value != "" && forall k :: 0 <= k < |value| ==> value[k] !in {' ', '\t', '\r', '>', '"', '\''}
       case Valueless(_) => true
  }

  function AttributeText(a: Attribute): string {
    match a
    case Quoted(name, quote, value) => " " + name + "=" + [quote] + value + [quote]
    case Unquoted(name, value) => " " + name + "=" + value
    case Valueless(name) => " " + name
  }

  /** The destinations of one attribute: `src` of an `img`, `href` of an `a`, in any case, unless empty. */
  function AttributeTarget(a: Attribute, at: nat, element: string): seq<Range> {
    var name := Lower(a.name);
    var wanted := (element == "img" && name == "src") || (element == "a" && name == "href");
    match a
    case Quoted(_, _, value) => if wanted && value != "" then [Range(at + |name| + 3, at + |name| + 3 + |value|)] else []
    case Unquoted(_, value) => if wanted then [Range(at + |name| + 2, at + |name| + 2 + |value|)] else []
    case Valueless(_) => []
  }

  function AttributesText(attributes: seq<Attribute>): string {
    if attributes == [] then "" else AttributeText(attributes[0]) + AttributesText(attributes[1..])
  }

  function AttributeTargets(attributes: seq<Attribute>, at: nat, element: string): seq<Range> {
    if attributes == [] then [] else AttributeTarget(attributes[0], at, element) + AttributeTargets(attributes[1..], at + |AttributeText(attributes[0])|, element)
  }

  lemma {:induction false} OutsideQuotes(line: string, i: nat, j: nat)
    requires i <= j <= |line| && forall k :: i <= k < j ==> !IsQuote(line[k]) && line[k] != '>'
    ensures TagEnd(line, i, '\0') == TagEnd(line, j, '\0')
    decreases j - i
  {
    if i < j {
      OutsideQuotes(line, i + 1, j);
    }
  }

  lemma {:induction false} InsideQuotes(line: string, i: nat, j: nat, quote: char)
    requires i <= j < |line| && quote != '\0' && line[j] == quote && forall k :: i <= k < j ==> line[k] != quote
    ensures TagEnd(line, i, quote) == TagEnd(line, j + 1, '\0')
    decreases j - i
  {
    if i < j {
      InsideQuotes(line, i + 1, j, quote);
    }
  }

  lemma QuotedSkipped(line: string, i: nat, name: string, quote: char, value: string)
    requires Here(line, i, " " + name + "=" + [quote] + value + [quote]) && IsName(name) && quote !in value && (quote == '"' || quote == '\'')
    ensures TagEnd(line, i, '\0') == TagEnd(line, i + |name| + |value| + 4, '\0')
  {
    hide TagEnd, Here;
    var n := i + 1 + |name|;
    QuotedHere(line, i, name, quote, value);
    OutsideQuotes(line, i, n + 1);
    QuoteOpens(line, n + 1);
    InsideQuotes(line, n + 2, n + 2 + |value|, quote);
  }

  lemma ValuelessSkipped(line: string, i: nat, name: string)
    requires Here(line, i, " " + name) && IsName(name)
    ensures TagEnd(line, i, '\0') == TagEnd(line, i + 1 + |name|, '\0')
  {
    hide TagEnd;
    HereSplit(line, i, " ", name);
    NameHere(line, i + 1, name);
    assert line[i] == ' ';
    OutsideQuotes(line, i, i + 1 + |name|);
  }

  /** The end of a tag is not inside one of its attributes. */
  lemma AttributeSkipped(line: string, i: nat, a: Attribute)
    requires Here(line, i, AttributeText(a)) && IsAttribute(a)
    ensures i + |AttributeText(a)| <= |line| && TagEnd(line, i, '\0') == TagEnd(line, i + |AttributeText(a)|, '\0')
  {
    hide TagEnd, IsName;
    match a
    case Quoted(name, quote, value) => QuotedSkipped(line, i, name, quote, value);
    case Unquoted(name, value) =>
      UnquotedHere(line, i, name, value);
      OutsideQuotes(line, i, i + 2 + |name| + |value|);
    case Valueless(name) => ValuelessSkipped(line, i, name);
  }

  lemma QuoteOpens(line: string, i: nat)
    requires i < |line| && IsQuote(line[i])
    ensures TagEnd(line, i, '\0') == TagEnd(line, i + 1, line[i])
  {
  }

  lemma NameHere(line: string, i: nat, name: string)
    requires Here(line, i, name) && IsName(name)
    ensures forall k :: i <= k < i + |name| ==> IsNameByte(line[k]) && !IsQuote(line[k]) && line[k] != '>'
  {
    forall k | i <= k < i + |name|
      ensures IsNameByte(line[k])
    {
      assert line[k] == name[k - i];
    }
  }

  lemma QuotedHere(line: string, i: nat, name: string, quote: char, value: string)
    requires Here(line, i, " " + name + "=" + [quote] + value + [quote]) && IsName(name) && quote !in value && (quote == '"' || quote == '\'')
    ensures var n := i + 1 + |name|;
      && n + 2 + |value| < |line| && line[i] == ' ' && Here(line, i + 1, name) && line[n] == '=' && line[n + 1] == quote && line[n + 2 + |value|] == quote
      && (forall k :: n + 2 <= k < n + 2 + |value| ==> line[k] != quote)
      && (forall k :: i <= k < n + 1 ==> !IsQuote(line[k]) && line[k] != '>')
  {
    HereSplit(line, i, " " + name + "=" + [quote] + value, [quote]);
    HereSplit(line, i, " " + name + "=" + [quote], value);
    HereSplit(line, i, " " + name + "=", [quote]);
    UnquotedHere(line, i, name, "");
    var n := i + 1 + |name|;
    forall k | n + 2 <= k < n + 2 + |value|
      ensures line[k] != quote
    {
      assert line[k] == value[k - n - 2] && value[k - n - 2] in value;
    }
  }

  lemma UnquotedHere(line: string, i: nat, name: string, value: string)
    requires Here(line, i, " " + name + "=" + value) || (value == "" && Here(line, i, " " + name + "="))
    requires IsName(name) && forall k :: 0 <= k < |value| ==> value[k] !in {' ', '\t', '\r', '>', '"', '\''}
    ensures var n := i + 1 + |name|;
      && n + 1 + |value| <= |line| && line[i] == ' ' && Here(line, i + 1, name) && line[n] == '='
      && (forall k :: n + 1 <= k < n + 1 + |value| ==> line[k] !in {' ', '\t', '\r', '>', '"', '\''})
      && (forall k :: i <= k < n + 1 + |value| ==> !IsQuote(line[k]) && line[k] != '>')
  {
    assert " " + name + "=" + "" == " " + name + "=";
    HereSplit(line, i, " " + name + "=", value);
    HereSplit(line, i, " " + name, "=");
    HereSplit(line, i, " ", name);
    NameHere(line, i + 1, name);
    var n := i + 1 + |name|;
    assert line[i] == ' ' && line[n] == '=';
    forall k | n + 1 <= k < n + 1 + |value|
      ensures line[k] !in {' ', '\t', '\r', '>', '"', '\''}
    {
      assert line[k] == value[k - n - 1];
    }
  }

  /** The attribute whose text starts at the space at `p`; a valueless one must not be followed by `=`. */
  lemma AttributeScanned(tag: string, p: nat, a: Attribute, element: string)
    requires Here(tag, p, AttributeText(a)) && IsAttribute(a)
    requires var q := p + |AttributeText(a)|; q == |tag| || (tag[q] == ' ' && (a.Valueless? ==> Span(tag, q, Blank) == |tag| || tag[Span(tag, q, Blank)] != '='))
    ensures var q := p + |AttributeText(a)|;
      q <= |tag| && AttributeRanges(tag, p, element) == AttributeTarget(a, p, element) + AttributeRanges(tag, q, element)
  {
    hide Span, Lower, AttributeRanges;
    match a
    case Quoted(name, quote, value) => QuotedScanned(tag, p, name, quote, value, element);
    case Unquoted(name, value) => UnquotedScanned(tag, p, name, value, element);
    case Valueless(name) => ValuelessScanned(tag, p, name, element);
  }

  lemma RangesStep(tag: string, p: nat, element: string)
    requires p < |tag|
    ensures var s := AttributeAt(tag, p, element); AttributeRanges(tag, p, element) == s.found + AttributeRanges(tag, s.next, element)
  {
    hide AttributeAt;
  }

  /** The name of an attribute after its space. */
  lemma NameScanned(tag: string, p: nat, name: string, element: string)
    requires p < |tag| && tag[p] == ' ' && Here(tag, p + 1, name) && IsName(name)
    requires var q := p + 1 + |name|; q == |tag| || !IsNameByte(tag[q])
    ensures var q := p + 1 + |name|;
      && AttributeRanges(tag, p, element) == AttributeRanges(tag, p + 1, element)
      && AttributeAt(tag, p + 1, element) == NamedAttribute(tag, p + 1, q, element) && tag[p + 1..q] == name
  {
    hide AttributeRanges, NamedAttribute;
    NameHere(tag, p + 1, name);
    RangesStep(tag, p, element);
    assert AttributeAt(tag, p, element) == AttributeStep(p + 1, []);
    SpanIs(tag, p + 1, Name, p + 1 + |name|);
    HereSlice(tag, p + 1, name);
  }

  /** An attribute whose value is known. */
  lemma ValueScanned(tag: string, p: nat, name: string, v: AttributeValue, element: string)
    requires p + 1 + |name| < |tag| && tag[p] == ' ' && Here(tag, p + 1, name) && IsName(name) && tag[p + 1 + |name|] == '='
    requires ValueAt(tag, p + 2 + |name|) == v
    ensures AttributeRanges(tag, p, element) ==
      (if v.start < v.end && IsResourceAttribute(element, Lower(name)) then [Range(v.start, v.end)] else []) + AttributeRanges(tag, v.next, element)
  {
    hide AttributeRanges, Lower, Here, IsName, ValueAt;
    var n := p + 1 + |name|;
    NameScanned(tag, p, name, element);
    SpanIs(tag, n, Blank, n);
    RangesStep(tag, p + 1, element);
  }

  lemma QuotedScanned(tag: string, p: nat, name: string, quote: char, value: string, element: string)
    requires Here(tag, p, " " + name + "=" + [quote] + value + [quote]) && IsName(name) && quote !in value && (quote == '"' || quote == '\'')
    ensures var q := p + |name| + |value| + 4;
      q <= |tag| && AttributeRanges(tag, p, element) == AttributeTarget(Quoted(name, quote, value), p, element) + AttributeRanges(tag, q, element)
  {
    hide AttributeRanges, Lower, Here, IsName, ValueAt;
    QuotedHere(tag, p, name, quote, value);
    var n := p + 1 + |name|;
    ValueQuoted(tag, n + 1, quote, |value|);
    ValueScanned(tag, p, name, AttributeValue(n + 2, n + 2 + |value|, n + 3 + |value|), element);
  }

  lemma ValueQuoted(tag: string, p: nat, quote: char, n: nat)
    requires p + 1 + n < |tag| && IsQuote(quote) && tag[p] == quote && tag[p + 1 + n] == quote && forall k :: p + 1 <= k < p + 1 + n ==> tag[k] != quote
    ensures ValueAt(tag, p) == AttributeValue(p + 1, p + 1 + n, p + 2 + n)
  {
    SpanIs(tag, p, Blank, p);
    SpanIs(tag, p + 1, Except(quote), p + 1 + n);
  }

  lemma ValueUnquoted(tag: string, p: nat, n: nat)
    requires n > 0 && p + n <= |tag| && (forall k :: p <= k < p + n ==> tag[k] !in {' ', '\t', '\r', '>', '"', '\''})
    requires p + n < |tag| ==> tag[p + n] == ' '
    ensures ValueAt(tag, p) == AttributeValue(p, p + n, p + n)
  {
    SpanIs(tag, p, Blank, p);
    SpanIs(tag, p, BareValue, p + n);
  }

  lemma UnquotedScanned(tag: string, p: nat, name: string, value: string, element: string)
    requires Here(tag, p, " " + name + "=" + value) && IsName(name) && value != ""
    requires forall k :: 0 <= k < |value| ==> value[k] !in {' ', '\t', '\r', '>', '"', '\''}
    requires var q := p + |name| + |value| + 2; q == |tag| || tag[q] == ' '
    ensures var q := p + |name| + |value| + 2;
      q <= |tag| && AttributeRanges(tag, p, element) == AttributeTarget(Unquoted(name, value), p, element) + AttributeRanges(tag, q, element)
  {
    hide AttributeRanges, Lower, Here, IsName, ValueAt;
    UnquotedHere(tag, p, name, value);
    var n := p + 1 + |name|;
    ValueUnquoted(tag, n + 1, |value|);
    ValueScanned(tag, p, name, AttributeValue(n + 1, n + 1 + |value|, n + 1 + |value|), element);
  }

  lemma ValuelessScanned(tag: string, p: nat, name: string, element: string)
    requires Here(tag, p, " " + name) && IsName(name)
    requires var q := p + 1 + |name|; q == |tag| || (tag[q] == ' ' && (Span(tag, q, Blank) == |tag| || tag[Span(tag, q, Blank)] != '='))
    ensures var q := p + 1 + |name|;
      q <= |tag| && AttributeRanges(tag, p, element) == AttributeRanges(tag, q, element)
  {
    hide AttributeRanges, Lower, IsName, Span;
    HereSplit(tag, p, " ", name);
    assert tag[p] == ' ';
    var q := p + 1 + |name|;
    NameScanned(tag, p, name, element);
    RangesStep(tag, p + 1, element);
    BlanksSkipped(tag, q, Span(tag, q, Blank), element);
  }

  lemma {:induction false} BlanksSkipped(tag: string, i: nat, j: nat, element: string)
    requires i <= j <= |tag| && Span(tag, i, Blank) == j
    ensures AttributeRanges(tag, i, element) == AttributeRanges(tag, j, element)
    decreases j - i
  {
    hide AttributeRanges;
    SpanRun(tag, i, Blank);
    if i < j {
      assert Belongs(tag[i], Blank);
      RangesStep(tag, i, element);
      BlanksSkipped(tag, i + 1, j, element);
    }
  }

  predicate AllAttributes(attributes: seq<Attribute>) {
    forall k :: 0 <= k < |attributes| ==> IsAttribute(attributes[k])
  }

  lemma {:induction false} AttributesSkipped(line: string, i: nat, attributes: seq<Attribute>)
    requires Here(line, i, AttributesText(attributes)) && AllAttributes(attributes)
    ensures var j := i + |AttributesText(attributes)|; j <= |line| && TagEnd(line, i, '\0') == TagEnd(line, j, '\0')
    decreases |attributes|
  {
    hide TagEnd, Here, AttributeText, IsAttribute;
    if attributes == [] {
      HereEnds(line, i, "");
    } else {
      HereSplit(line, i, AttributeText(attributes[0]), AttributesText(attributes[1..]));
      AttributeSkipped(line, i, attributes[0]);
      AttributesSkipped(line, i + |AttributeText(attributes[0])|, attributes[1..]);
    }
  }

  lemma HereEnds(line: string, i: nat, text: string)
    requires Here(line, i, text)
    ensures i + |text| <= |line|
  {
  }

  /** After its attributes a tag ends, with or without a slash. */
  function Tail(closed: bool): string {
    if closed then " /" else ""
  }

  /** What follows an attribute. */
  lemma NextIs(tag: string, p: nat, attributes: seq<Attribute>, closed: bool)
    requires Here(tag, p, AttributesText(attributes) + Tail(closed)) && |tag| == p + |AttributesText(attributes)| + |Tail(closed)| && AllAttributes(attributes)
    ensures p == |tag| || (tag[p] == ' ' && (Span(tag, p, Blank) == |tag| || tag[Span(tag, p, Blank)] != '='))
  {
    hide Span;
    if attributes == [] {
      assert AttributesText(attributes) + Tail(closed) == Tail(closed);
      if closed {
        assert tag[p] == " /"[0] && tag[p + 1] == " /"[1];
        SpanIs(tag, p, Blank, p + 1);
      }
    } else {
      NameFirst(attributes[0]);
      var text := AttributesText(attributes) + Tail(closed);
      assert tag[p] == text[0] && tag[p + 1] == text[1];
      SpanIs(tag, p, Blank, p + 1);
    }
  }

  lemma NameFirst(a: Attribute)
    requires IsAttribute(a)
    ensures |AttributeText(a)| >= 2 && AttributeText(a)[0] == ' ' && IsNameByte(AttributeText(a)[1])
  {
    assert AttributeText(a)[1] == a.name[0];
  }

  lemma {:induction false} AttributesScanned(tag: string, p: nat, attributes: seq<Attribute>, closed: bool, element: string)
    requires Here(tag, p, AttributesText(attributes) + Tail(closed)) && |tag| == p + |AttributesText(attributes)| + |Tail(closed)| && AllAttributes(attributes)
    ensures AttributeRanges(tag, p, element) == AttributeTargets(attributes, p, element)
    decreases |attributes|
  {
    hide AttributeRanges, AttributeTarget, AttributeText, Here, Span, IsAttribute;
    if attributes == [] {
      assert AttributesText(attributes) + Tail(closed) == Tail(closed);
      TailScanned(tag, p, closed, element);
    } else {
      var first, rest := AttributeText(attributes[0]), AttributesText(attributes[1..]) + Tail(closed);
      assert AttributesText(attributes) + Tail(closed) == first + rest;
      HereSplit(tag, p, first, rest);
      NextIs(tag, p + |first|, attributes[1..], closed);
      AttributeScanned(tag, p, attributes[0], element);
      AttributesScanned(tag, p + |first|, attributes[1..], closed, element);
    }
  }

  lemma TailScanned(tag: string, p: nat, closed: bool, element: string)
    requires Here(tag, p, Tail(closed)) && |tag| == p + |Tail(closed)|
    ensures AttributeRanges(tag, p, element) == []
  {
    if closed {
      assert tag[p] == " /"[0] && tag[p + 1] == " /"[1];
      RangesStep(tag, p, element);
      RangesStep(tag, p + 1, element);
    }
  }

  function TagText(name: string, attributes: seq<Attribute>, closed: bool): string {
    "<" + name + AttributesText(attributes) + Tail(closed) + ">"
  }

  lemma TagParts(line: string, i: nat, name: string, rest: string)
    requires Here(line, i, "<" + name + rest + ">")
    ensures var n, end := i + 1 + |name|, i + 1 + |name| + |rest|;
      && end < |line| && line[i] == '<' && line[end] == '>' && Here(line, i + 1, name) && Here(line, n, rest)
  {
    HereSplit(line, i, "<" + name + rest, ">");
    HereSplit(line, i, "<" + name, rest);
    HereSplit(line, i, "<", name);
    var end := i + 1 + |name| + |rest|;
    assert line[i] == "<"[0] && line[end] == ">"[0];
  }

  /** The parts of a tag in a line. */
  lemma TagHere(line: string, i: nat, name: string, attributes: seq<Attribute>, closed: bool)
    requires Here(line, i, TagText(name, attributes, closed)) && IsName(name) && AllAttributes(attributes)
    ensures var n, end := i + 1 + |name|, i + |TagText(name, attributes, closed)| - 1;
      && i < n <= end < |line| && line[i] == '<' && line[end] == '>' && Here(line[..end], i + 1, name)
      && end == n + |AttributesText(attributes)| + |Tail(closed)| && Here(line[..end], n, AttributesText(attributes) + Tail(closed))
      && (n == end || line[n] == ' ') && TagEnd(line, i + 1, '\0') == Some(end)
  {
    hide TagEnd, AttributesText, Here, IsName, AllAttributes, Span;
    var n := i + 1 + |name|;
    var rest := AttributesText(attributes) + Tail(closed);
    assert TagText(name, attributes, closed) == "<" + name + rest + ">";
    var end := n + |rest|;
    TagParts(line, i, name, rest);
    HereSplit(line, n, AttributesText(attributes), Tail(closed));
    NameHere(line, i + 1, name);
    OutsideQuotes(line, i + 1, n);
    AttributesSkipped(line, n, attributes);
    TailSkipped(line, end - |Tail(closed)|, closed);
    EndHere(line, end);
    HereCut(line, i + 1, name, end);
    HereCut(line, n, rest, end);
    NextIs(line[..end], n, attributes, closed);
  }

  lemma HereCut(line: string, i: nat, text: string, end: nat)
    requires Here(line, i, text) && i + |text| <= end <= |line|
    ensures Here(line[..end], i, text)
  {
  }

  lemma EndHere(line: string, i: nat)
    requires i < |line| && line[i] == '>'
    ensures TagEnd(line, i, '\0') == Some(i)
  {
  }

  lemma TailSkipped(line: string, i: nat, closed: bool)
    requires Here(line, i, Tail(closed))
    ensures i + |Tail(closed)| <= |line| && TagEnd(line, i, '\0') == TagEnd(line, i + |Tail(closed)|, '\0')
  {
    if closed {
      assert line[i] == " /"[0] && line[i + 1] == " /"[1];
      OutsideQuotes(line, i, i + 2);
    }
  }

  /** A tag is scanned as one element. */
  lemma TagScanned(line: string, i: nat, name: string, attributes: seq<Attribute>, closed: bool, m: Mode)
    requires Here(line, i, TagText(name, attributes, closed)) && IsName(name) && AllAttributes(attributes) && Open(m)
    ensures var n, end := i + 1 + |name|, i + |TagText(name, attributes, closed)| - 1;
      && n <= end < |line| && line[n..end] == AttributesText(attributes) + Tail(closed)
      && var s := TagBody(line[..end], n, Lower(name), false, m);
      ScanInline(line, i, m) == Found(s.found, ScanInline(line, s.next, s.mode))
  {
    hide *;
    var n, end := i + 1 + |name|, i + |TagText(name, attributes, closed)| - 1;
    TagHere(line, i, name, attributes, closed);
    var tag := line[..end];
    NameThere(tag, i + 1, name);
    HereSlice(tag, n, AttributesText(attributes) + Tail(closed));
    assert tag[n..n + |AttributesText(attributes) + Tail(closed)|] == line[n..end];
    assert tag[i + 1] == line[i + 1];
    NamedTagIs(tag, i, n, name, m);
    TagStep(line, i, end, m);
    ScanStep(line, i, m);
  }

  /** A name that ends where the tag ends, or at a space. */
  lemma NameThere(tag: string, i: nat, name: string)
    requires Here(tag, i, name) && IsName(name) && (i + |name| == |tag| || (i + |name| < |tag| && tag[i + |name|] == ' '))
    ensures name != "" && IsNameByte(tag[i]) && Span(tag, i, Name) == i + |name| && tag[i..i + |name|] == name
  {
    hide Span;
    NameHere(tag, i, name);
    SpanIs(tag, i, Name, i + |name|);
    HereSlice(tag, i, name);
  }

  lemma TagStep(line: string, i: nat, end: nat, m: Mode)
    requires i + 1 < end < |line| && line[i] == '<' && IsNameByte(line[i + 1]) && TagEnd(line, i + 1, '\0') == Some(end) && Open(m)
    requires NamedTag(line[..end], i, m).Some?
    ensures InlineStep(line, i, m) == NamedTag(line[..end], i, m).value
  {
    hide NamedTag, TagEnd, StartsAt;
    OpensIs(line, i);
  }

  lemma NamedTagIs(tag: string, i: nat, n: nat, name: string, m: Mode)
    requires i + 1 < n <= |tag| && IsNameByte(tag[i + 1]) && Span(tag, i + 1, Name) == n && tag[i + 1..n] == name
    ensures NamedTag(tag, i, m) == Some(TagBody(tag, n, Lower(name), false, m))
  {
    hide TagBody, Lower;
  }

  lemma {:induction false} NothingWanted(attributes: seq<Attribute>, at: nat, element: string)
    requires element != "img" && element != "a"
    ensures AttributeTargets(attributes, at, element) == []
    decreases |attributes|
  {
    hide Lower, AttributeText;
    if attributes != [] {
      NothingWanted(attributes[1..], at + |AttributeText(attributes[0])|, element);
    }
  }

  /** The destinations of a tag that is no code element; in raw HTML code it has none. */
  lemma ResourceFound(line: string, i: nat, name: string, attributes: seq<Attribute>, closed: bool, m: Mode)
    requires Here(line, i, TagText(name, attributes, closed)) && IsName(name) && AllAttributes(attributes) && Open(m)
    requires Lower(name) != "code" && Lower(name) != "pre"
    ensures ScanInline(line, i, m) ==
      Found(if m.inHtmlCode then [] else AttributeTargets(attributes, i + 1 + |name|, Lower(name)), ScanInline(line, i + |TagText(name, attributes, closed)|, m))
  {
    hide ScanInline, TagEnd, Here, AttributesText, AttributeTargets, Lower, TagText, IsName, IsSelfClosing;
    var end := i + |TagText(name, attributes, closed)| - 1;
    TagHere(line, i, name, attributes, closed);
    TagScanned(line, i, name, attributes, closed, m);
    AttributesScanned(line[..end], i + 1 + |name|, attributes, closed, Lower(name));
    if Lower(name) != "img" && Lower(name) != "a" {
      NothingWanted(attributes, i + 1 + |name|, Lower(name));
    }
  }

  /** A code element opens raw HTML code, unless it closes itself. */
  lemma CodeElementScanned(line: string, i: nat, name: string, closed: bool, m: Mode)
    requires Here(line, i, TagText(name, [], closed)) && IsName(name) && Open(m) && (Lower(name) == "code" || Lower(name) == "pre")
    ensures ScanInline(line, i, m) == ScanInline(line, i + |TagText(name, [], closed)|, m.(inHtmlCode := !closed))
  {
    hide ScanInline, TagEnd, Here, Lower, TagText, IsName;
    var n, end := i + 1 + |name|, i + |TagText(name, [], closed)| - 1;
    TagScanned(line, i, name, [], closed, m);
    assert AttributesText([]) + Tail(closed) == Tail(closed);
    TailCloses(closed);
    if !closed {
      BodyOfCode(line[..end], n, Lower(name), false, m);
    } else {
      BodyOfCode(line[..end], n, Lower(name), true, m);
      NothingInCode(line[..end], n, Lower(name), m);
    }
  }

  lemma TailCloses(closed: bool)
    ensures IsSelfClosing(Tail(closed)) <==> closed
  {
    assert closed ==> Tail(closed)[1] == '/';
  }

  lemma BodyOfCode(tag: string, n: nat, name: string, closed: bool, m: Mode)
    requires n <= |tag| && (name == "code" || name == "pre") && (IsSelfClosing(tag[n..]) <==> closed)
    ensures TagBody(tag, n, name, false, m) == Step(|tag| + 1, m.(inHtmlCode := !closed), [])
  {
    hide IsSelfClosing;
  }

  lemma NothingInCode(tag: string, n: nat, name: string, m: Mode)
    requires n <= |tag| && (name == "code" || name == "pre")
    ensures TagBody(tag, n, name, false, m).found == []
  {
    hide IsSelfClosing;
  }

  function ClosingText(name: string): string {
    "</" + name + ">"
  }

  /** The parts of a closing tag in a line. */
  lemma ClosingHere(line: string, i: nat, name: string)
    requires Here(line, i, ClosingText(name)) && IsName(name)
    ensures var end := i + 2 + |name|;
      && i + 2 < end < |line| && line[i] == '<' && line[i + 1] == '/' && Here(line[..end], i + 2, name) && TagEnd(line, i + 1, '\0') == Some(end)
  {
    hide TagEnd;
    var end := i + 2 + |name|;
    assert ClosingText(name) == "<" + ("/" + name) + "" + ">";
    TagParts(line, i, "/" + name, "");
    HereSplit(line, i + 1, "/", name);
    assert line[i + 1] == "/"[0];
    NameHere(line, i + 2, name);
    OutsideQuotes(line, i + 1, end);
    EndHere(line, end);
    HereCut(line, i + 2, name, end);
  }

  /** A closing tag has no destinations; that of a code element ends raw HTML code. */
  lemma ClosingScanned(line: string, i: nat, name: string, m: Mode)
    requires Here(line, i, ClosingText(name)) && IsName(name) && Open(m)
    ensures ScanInline(line, i, m) ==
      ScanInline(line, i + |name| + 3, m.(inHtmlCode := m.inHtmlCode && Lower(name) != "code" && Lower(name) != "pre"))
  {
    hide ScanInline, TagEnd, Lower, IsName, Span, Here, StartsAt;
    ClosingHere(line, i, name);
    var end := i + 2 + |name|;
    var tag := line[..end];
    NameHere(tag, i + 2, name);
    SpanIs(tag, i + 2, Name, end);
    HereSlice(tag, i + 2, name);
    ClosingTagIs(tag, i, name, m);
    OpensIs(line, i);
    ScanStep(line, i, m);
    ClosingStep(line, i, end, m);
  }

  lemma ClosingStep(line: string, i: nat, end: nat, m: Mode)
    requires i + 1 < end < |line| && line[i] == '<' && line[i + 1] != '!' && TagEnd(line, i + 1, '\0') == Some(end) && Open(m) && NamedTag(line[..end], i, m).Some?
    ensures InlineStep(line, i, m) == NamedTag(line[..end], i, m).value
  {
    hide NamedTag, TagEnd, StartsAt;
    OpensIs(line, i);
  }

  lemma ClosingTagIs(tag: string, i: nat, name: string, m: Mode)
    requires i + 2 < |tag| && tag[i + 1] == '/' && Span(tag, i + 2, Name) == |tag| && tag[i + 2..] == name
    ensures NamedTag(tag, i, m) == Some(Step(|tag| + 1, m.(inHtmlCode := m.inHtmlCode && Lower(name) != "code" && Lower(name) != "pre"), []))
  {
    hide Lower, Span, AttributeRanges;
    assert tag[i + 2..|tag|] == tag[i + 2..];
  }

  lemma {:induction false} SkipHtmlCode(line: string, i: nat, j: nat, m: Mode)
    requires i <= j <= |line| && Open(m) && m.inHtmlCode && forall k :: i <= k < j ==> line[k] != '<' && line[k] != '`'
    ensures ScanInline(line, i, m) == ScanInline(line, j, m)
    decreases j - i
  {
    hide ScanInline;
    if i < j {
      ScanStep(line, i, m);
      HtmlCodeStep(line, i, m);
      SkipHtmlCode(line, i + 1, j, m);
    }
  }

  lemma HtmlCodeStep(line: string, i: nat, m: Mode)
    requires i < |line| && Open(m) && m.inHtmlCode && line[i] != '<' && line[i] != '`'
    ensures InlineStep(line, i, m) == Step(i + 1, m, [])
  {
    hide Link, StartsAt;
    OpensIs(line, i);
  }

  /** Nothing is found between the tags of a code element. */
  lemma HtmlCodeSkipped(line: string, i: nat, name: string, text: string, closing: string, m: Mode)
    requires Here(line, i, TagText(name, [], false) + text + ClosingText(closing)) && IsName(name) && IsName(closing) && Open(m) && !m.inHtmlCode
    requires Lower(name) in {"code", "pre"} && Lower(closing) in {"code", "pre"} && '<' !in text && '`' !in text
    ensures ScanInline(line, i, m) == ScanInline(line, i + |name| + 2 + |text| + |closing| + 3, m)
  {
    hide ScanInline, Lower, IsName, Here;
    var open := TagText(name, [], false);
    assert |open| == |name| + 2;
    HereSplit(line, i, open + text, ClosingText(closing));
    HereSplit(line, i, open, text);
    CodeElementScanned(line, i, name, false, m);
    var j := i + |open|;
    TextWithout(line, j, text);
    SkipHtmlCode(line, j, j + |text|, m.(inHtmlCode := true));
    ClosingScanned(line, j + |text|, closing, m.(inHtmlCode := true));
  }

  lemma TextWithout(line: string, i: nat, text: string)
    requires Here(line, i, text)
    ensures i + |text| <= |line| && forall k :: i <= k < i + |text| ==> line[k] in text
  {
    forall k | i <= k < i + |text|
      ensures line[k] in text
    {
      assert line[k] == text[k - i];
    }
  }
}
