/**
 What holds of the destinations found in every source: their order, what introduces them, and how
 scanning a source splits at a newline.
 */
module UrlRanges {
  import opened TextScan
  import opened UrlSyntax

  /** Non-empty ranges between `lo` and `hi`, in source order and disjoint. */
  ghost predicate Ordered(rs: seq<Range>, lo: int, hi: int) {
    && (forall k :: 0 <= k < |rs| ==> lo <= rs[k].start < rs[k].end <= hi)
    && (forall j, k :: 0 <= j < k < |rs| ==> rs[j].end <= rs[k].start)
  }

  /** The characters that can stand immediately before a destination inside a line. */
  predicate Introduces(c: char) {
    c == '(' || c == ' ' || c == '\t' || c == '<' || c == '=' || c == '"' || c == '\''
  }

  /** Every range of an inline scan from `i` follows an introducing character, two characters on or later. */
  ghost predicate Introduced(line: string, rs: seq<Range>, i: nat)
  {
    forall r :: r in rs ==> i + 2 <= r.start < r.end <= |line| && Introduces(line[r.start - 1])
  }

  lemma OrderedConcat(a: seq<Range>, b: seq<Range>, lo: int, mid: int, hi: int)
    requires lo <= mid <= hi && Ordered(a, lo, mid) && Ordered(b, mid, hi)
    ensures Ordered(a + b, lo, hi)
  {
  }

  lemma OrderedEmpty(lo: int, hi: int)
    ensures Ordered([], lo, hi)
  {
  }

  lemma OrderedWeaken(rs: seq<Range>, lo: int, lo': int, hi: int)
    requires lo' <= lo && Ordered(rs, lo, hi)
    ensures Ordered(rs, lo', hi)
  {
  }

  lemma OrderedShift(rs: seq<Range>, hi: nat, offset: nat)
    requires Ordered(rs, 0, hi)
    ensures Ordered(Shift(rs, offset), offset, offset + hi)
  {
  }

  /** What one step found, followed by what the scan from its end finds. */
  lemma FoundConcat(line: string, found: seq<Range>, rest: seq<Range>, i: nat, next: nat)
    requires i < next <= |line|
    requires Ordered(found, i + 2, next) && Introduced(line, found, i)
    requires Ordered(rest, next + 2, |line|) && Introduced(line, rest, next)
    ensures Ordered(found + rest, i + 2, |line|) && Introduced(line, found + rest, i)
  {
  }

  lemma DestinationIntroduced(line: string, start: nat)
    requires 1 <= start <= |line| && Introduces(line[start - 1])
    ensures Destination(line, start).Some? ==> Introduces(line[Destination(line, start).value.start - 1])
  {
    var p := Span(line, start, Blank);
    SpanRun(line, start, Blank);
    if p > start {
      assert Belongs(line[p - 1], Blank);
    }
  }

  lemma ValueIntroduced(tag: string, p: nat)
    requires 1 <= p <= |tag| && tag[p - 1] == '='
    ensures Introduces(tag[ValueAt(tag, p).start - 1])
  {
    var q := Span(tag, p, Blank);
    SpanRun(tag, p, Blank);
    if q > p {
      assert Belongs(tag[q - 1], Blank);
    }
  }

  lemma AttributeFound(tag: string, p: nat, element: string)
    requires p < |tag|
    ensures Ordered(AttributeAt(tag, p, element).found, p + 2, AttributeAt(tag, p, element).next)
    ensures Introduced(tag, AttributeAt(tag, p, element).found, p)
  {
    hide ValueAt, Lower;
    if AttributeAt(tag, p, element).found != [] {
      ValueIntroduced(tag, Span(tag, Span(tag, p, Name), Blank) + 1);
    }
  }

  lemma {:induction false} AttributesFound(tag: string, p: nat, element: string)
    requires p <= |tag|
    ensures Ordered(AttributeRanges(tag, p, element), p + 2, |tag|)
    ensures Introduced(tag, AttributeRanges(tag, p, element), p)
    decreases |tag| - p
  {
    if p < |tag| {
      var s := AttributeAt(tag, p, element);
      AttributeFound(tag, p, element);
      AttributesFound(tag, s.next, element);
      FoundConcat(tag, s.found, AttributeRanges(tag, s.next, element), p, s.next);
    }
  }

  lemma TagFound(line: string, i: nat, m: Mode)
    requires i < |line| && Tag(line, i, m).Some?
    ensures line[i] == '<'
    ensures Ordered(Tag(line, i, m).value.found, i + 2, Tag(line, i, m).value.next)
    ensures Introduced(line, Tag(line, i, m).value.found, i)
  {
    hide AttributeRanges, Lower, IsSelfClosing;
    var tag := line[..TagEnd(line, i + 1, '\0').value];
    var nameStart := if i + 1 < |tag| && tag[i + 1] == '/' then i + 2 else i + 1;
    var nameEnd := Span(tag, nameStart, Name);
    AttributesFound(tag, nameEnd, Lower(tag[nameStart..nameEnd]));
  }

  lemma StepFound(line: string, i: nat, m: Mode)
    requires i < |line|
    ensures Ordered(InlineStep(line, i, m).found, i + 2, InlineStep(line, i, m).next)
    ensures Introduced(line, InlineStep(line, i, m).found, i)
    ensures InlineStep(line, i, m).found != [] ==> line[i] == '<' || line[i] == ']'
  {
    hide Tag, Destination, Backslashes;
    if Tag(line, i, m).Some? {
      TagFound(line, i, m);
    } else if Link(line, i).Some? {
      DestinationIntroduced(line, i + 2);
    }
  }

  lemma {:induction false} InlineFound(line: string, i: nat, m: Mode)
    requires i <= |line|
    ensures Ordered(ScanInline(line, i, m).found, i + 2, |line|)
    ensures Introduced(line, ScanInline(line, i, m).found, i)
    decreases |line| - i
  {
    if i < |line| {
      var s := InlineStep(line, i, m);
      StepFound(line, i, m);
      InlineFound(line, s.next, s.mode);
      FoundConcat(line, s.found, ScanInline(line, s.next, s.mode).found, i, s.next);
    }
  }

  /** Before any inline destination there is a `<` or a `]`. */
  lemma {:induction false} InlineMark(line: string, i: nat, m: Mode, r: Range) returns (k: nat)
    requires i <= |line| && r in ScanInline(line, i, m).found
    ensures i <= k < r.start <= |line| && (line[k] == '<' || line[k] == ']')
    decreases |line| - i
  {
    var s := InlineStep(line, i, m);
    StepFound(line, i, m);
    if r in s.found {
      k := i;
    } else {
      k := InlineMark(line, s.next, s.mode, r);
    }
  }

  lemma LineFound(line: string, m: Mode)
    ensures Ordered(ScanLine(line, m).found, 0, |line|)
    ensures ScanLine(line, m).found != [] ==> m.fenceWidth == 0 && !OpensFence(line, m) && !IsIndentedCode(line)
  {
    InlineFound(line, 0, m);
  }

  /** The state in which the line that holds position `at` is scanned, and where that line starts. */
  datatype LineState = LineState(start: nat, mode: Mode)

  ghost function LineStateAt(source: string, start: nat, m: Mode, at: nat): (s: LineState)
    requires start <= at < |source|
    ensures s.start <= at
    ensures s.start <= |source|
    decreases |source| - start
  {
    var end := LineEnd(source, start);
    if at <= end then LineState(start, m)
    else LineStateAt(source, end + 1, ScanLine(source[start..end], m).mode, at)
  }

  /** The line that holds `at` is scanned outside any fenced block and is not itself a fence or indented code. */
  ghost predicate OutsideBlockCode(source: string, start: nat, m: Mode, at: nat)
    requires start <= at < |source|
  {
    var s := LineStateAt(source, start, m, at);
    var line := source[s.start..LineEnd(source, s.start)];
    s.mode.fenceWidth == 0 && !OpensFence(line, s.mode) && !IsIndentedCode(line)
  }

  /** Every range found is non-empty, in bounds and after the previous one. */
  lemma {:induction false} RangesFound(source: string, start: nat, m: Mode)
    ensures Ordered(RangesFrom(source, start, m), start, |source|)
    decreases |source| - start
  {
    hide *;
    if start >= |source| {
      RangesDone(source, start, m);
      OrderedEmpty(start, |source|);
    } else {
      var end := LineEnd(source, start);
      var scan := ScanLine(source[start..end], m);
      LineFound(source[start..end], m);
      OrderedShift(scan.found, end - start, start);
      RangesFound(source, end + 1, scan.mode);
      OrderedWeaken(RangesFrom(source, end + 1, scan.mode), end + 1, end, |source|);
      OrderedConcat(Shift(scan.found, start), RangesFrom(source, end + 1, scan.mode), start, end, |source|);
      RangesUnfold(source, start, m);
    }
  }

  /** A range of the first line scanned. */
  lemma RangeInFirstLine(source: string, start: nat, m: Mode, r: Range)
    requires start < |source| && r in Shift(ScanLine(source[start..LineEnd(source, start)], m).found, start)
    ensures start <= r.start < r.end <= LineEnd(source, start) <= |source|
    ensures '\n' !in source[r.start..r.end]
    ensures OutsideBlockCode(source, start, m, r.start)
  {
    hide ScanLine;
    LineFound(source[start..LineEnd(source, start)], m);
    SpanRun(source, start, Except('\n'));
    ShiftedIn(ScanLine(source[start..LineEnd(source, start)], m).found, start, r, LineEnd(source, start));
  }

  lemma ShiftedIn(rs: seq<Range>, d: nat, r: Range, end: nat)
    requires d <= end && Ordered(rs, 0, end - d) && r in Shift(rs, d)
    ensures d <= r.start < r.end <= end && rs != []
  {
    var k :| 0 <= k < |Shift(rs, d)| && Shift(rs, d)[k] == r;
  }

  lemma OutsideLater(source: string, start: nat, m: Mode, at: nat)
    requires start < |source| && LineEnd(source, start) < at < |source|
    requires var end := LineEnd(source, start); OutsideBlockCode(source, end + 1, ScanLine(source[start..end], m).mode, at)
    ensures OutsideBlockCode(source, start, m, at)
  {
    hide ScanLine;
  }

  /** A range stays inside one line, and that line is no fence, fenced block or indented code. */
  lemma {:induction false} RangeInLine(source: string, start: nat, m: Mode, r: Range)
    requires r in RangesFrom(source, start, m)
    ensures start <= r.start < r.end <= |source|
    ensures '\n' !in source[r.start..r.end]
    ensures OutsideBlockCode(source, start, m, r.start)
    decreases |source| - start
  {
    hide ScanLine, OutsideBlockCode, Shift;
    var end := LineEnd(source, start);
    var scan := ScanLine(source[start..end], m);
    if r in Shift(scan.found, start) {
      RangeInFirstLine(source, start, m, r);
    } else {
      RangeInLine(source, end + 1, scan.mode, r);
      OutsideLater(source, start, m, r.start);
    }
  }

  /** The scanner state after the lines from `start` on. */
  ghost function ModeFrom(source: string, start: nat, m: Mode): Mode
    decreases |source| - start
  {
    if start >= |source| then m
    else ModeFrom(source, LineEnd(source, start) + 1, ScanLine(source[start..LineEnd(source, start)], m).mode)
  }

  /** `rs'` is `rs` moved by `d`. */
  ghost predicate Slid(rs: seq<Range>, rs': seq<Range>, d: int) {
    |rs| == |rs'| &&
    forall k :: 0 <= k < |rs| ==> rs'[k].start == rs[k].start + d && rs'[k].end == rs[k].end + d
  }

  lemma LineEndAligned(s: string, i: nat, t: string, j: nat)
    requires i <= |s| && j <= |t| && s[i..] == t[j..]
    ensures LineEnd(t, j) - j == LineEnd(s, i) - i
    ensures s[i..LineEnd(s, i)] == t[j..LineEnd(t, j)]
    ensures LineEnd(s, i) < |s| <==> LineEnd(t, j) < |t|
    ensures LineEnd(s, i) < |s| ==> s[LineEnd(s, i) + 1..] == t[LineEnd(t, j) + 1..]
  {
    SpanAligned(s, i, t, j, Except('\n'));
    var n := LineEnd(s, i) - i;
    assert s[i..][..n] == s[i..i + n] && t[j..][..n] == t[j..j + n];
    if i + n < |s| {
      assert s[i..][n + 1..] == s[i + n + 1..] && t[j..][n + 1..] == t[j + n + 1..];
    }
  }

  /** A run depends only on the text from its start. */
  lemma {:induction false} SpanAligned(s: string, i: nat, t: string, j: nat, class_: CharClass)
    requires i <= |s| && j <= |t| && s[i..] == t[j..]
    ensures Span(t, j, class_) - j == Span(s, i, class_) - i
    decreases |s| - i
  {
    if i < |s| {
      assert s[i..][0] == t[j..][0];
      assert s[i + 1..] == s[i..][1..] && t[j + 1..] == t[j..][1..];
      if Belongs(s[i], class_) {
        SpanAligned(s, i + 1, t, j + 1, class_);
      }
    } else {
      assert |s[i..]| == |t[j..]|;
    }
  }

  lemma RangesUnfold(source: string, start: nat, m: Mode)
    requires start < |source|
    ensures var scan := ScanLine(source[start..LineEnd(source, start)], m);
      && RangesFrom(source, start, m) == Shift(scan.found, start) + RangesFrom(source, LineEnd(source, start) + 1, scan.mode)
      && ModeFrom(source, start, m) == ModeFrom(source, LineEnd(source, start) + 1, scan.mode)
  {
    hide ScanLine;
  }

  lemma SlidEmpty(d: int)
    ensures Slid([], [], d)
  {
  }

  lemma SlidOne(r: Range, r': Range, d: int)
    requires r'.start == r.start + d && r'.end == r.end + d
    ensures Slid([r], [r'], d)
  {
  }

  lemma SlidShift(rs: seq<Range>, i: nat, j: nat)
    ensures Slid(Shift(rs, i), Shift(rs, j), j - i)
  {
  }

  lemma SlidConcat(a: seq<Range>, a': seq<Range>, b: seq<Range>, b': seq<Range>, d: int)
    requires Slid(a, a', d) && Slid(b, b', d)
    ensures Slid(a + b, a' + b', d)
  {
  }

  /** Scanning from a line start depends only on the text from there. */
  lemma {:induction false} RangesAligned(s: string, i: nat, t: string, j: nat, m: Mode)
    requires i <= |s| && j <= |t| && s[i..] == t[j..]
    ensures Slid(RangesFrom(s, i, m), RangesFrom(t, j, m), j - i)
    decreases |s| - i
  {
    hide *;
    assert |s[i..]| == |t[j..]|;
    if i == |s| {
      RangesDone(s, i, m);
      RangesDone(t, j, m);
      SlidEmpty(j - i);
    } else {
      LineEndAligned(s, i, t, j);
      RangesUnfold(s, i, m);
      RangesUnfold(t, j, m);
      var e, f := LineEnd(s, i), LineEnd(t, j);
      var scan := ScanLine(s[i..e], m);
      assert Slid(RangesFrom(s, e + 1, scan.mode), RangesFrom(t, f + 1, scan.mode), j - i) by {
        if e < |s| {
          RangesAligned(s, e + 1, t, f + 1, scan.mode);
        } else {
          RangesDone(s, e + 1, scan.mode);
          RangesDone(t, f + 1, scan.mode);
          SlidEmpty(j - i);
        }
      }
      SlidShift(scan.found, i, j);
      SlidConcat(Shift(scan.found, i), Shift(scan.found, j), RangesFrom(s, e + 1, scan.mode), RangesFrom(t, f + 1, scan.mode), j - i);
    }
  }

  lemma RangesDone(source: string, start: nat, m: Mode)
    requires start >= |source|
    ensures RangesFrom(source, start, m) == [] && ModeFrom(source, start, m) == m
  {
  }

  /** An empty line changes nothing. */
  lemma EmptyLine(m: Mode)
    ensures ScanLine("", m) == Scan(m, [])
  {
  }

  /** The lines of `a` are scanned alike with and without more lines after them. */
  lemma {:induction false} PrefixLines(a: string, b: string, start: nat, m: Mode)
    requires start <= |a|
    ensures var whole := a + "\n" + b;
      RangesFrom(whole, start, m) == RangesFrom(a, start, m) + RangesFrom(whole, |a| + 1, ModeFrom(a, start, m))
    decreases |a| - start
  {
    hide ScanLine, RangesFrom, ModeFrom;
    var whole := a + "\n" + b;
    LineEndWithin(a, whole, start);
    var e := LineEnd(a, start);
    var line := a[start..e];
    assert whole[start..e] == line;
    var scan := ScanLine(line, m);
    RangesUnfold(whole, start, m);
    if start == |a| {
      EmptyLine(m);
      RangesDone(a, start, m);
    } else {
      RangesUnfold(a, start, m);
      if e == |a| {
        RangesDone(a, e + 1, scan.mode);
      } else {
        PrefixLines(a, b, e + 1, scan.mode);
      }
      Associate(Shift(scan.found, start), RangesFrom(a, e + 1, scan.mode), RangesFrom(whole, |a| + 1, ModeFrom(a, start, m)));
    }
  }

  lemma Associate(a: seq<Range>, b: seq<Range>, c: seq<Range>)
    ensures a + (b + c) == (a + b) + c
  {
  }

  lemma {:induction false} LineEndWithin(a: string, whole: string, start: nat)
    requires start <= |a| <= |whole| && whole[..|a|] == a
    requires |a| < |whole| ==> whole[|a|] == '\n'
    ensures LineEnd(whole, start) == LineEnd(a, start)
    decreases |a| - start
  {
    if start < |a| {
      assert whole[start] == whole[..|a|][start];
      if a[start] != '\n' {
        LineEndWithin(a, whole, start + 1);
      }
    }
  }

  /**
   Scanning a source that continues after a newline finds the ranges of its first part, then those
   of the second part scanned from the state the first part left.
   */
  lemma RangesSplit(a: string, b: string)
    ensures var whole := RangesOf(a + "\n" + b);
      && RangesOf(a) <= whole
      && Slid(RangesFrom(b, 0, ModeFrom(a, 0, START)), whole[|RangesOf(a)|..], |a| + 1)
  {
    var whole := a + "\n" + b;
    PrefixLines(a, b, 0, START);
    assert whole[|a| + 1..] == b[0..];
    RangesAligned(b, 0, whole, |a| + 1, ModeFrom(a, 0, START));
    assert RangesOf(whole)[|RangesOf(a)|..] == RangesFrom(whole, |a| + 1, ModeFrom(a, 0, START));
  }
}
