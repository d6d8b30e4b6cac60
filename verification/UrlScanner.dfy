/**
 The Markdown URL scanner as it runs: fields updated line by line through index loops. Each
 method computes the corresponding function of `UrlSyntax`.
 */
module UrlScanner {
  import opened Options
  import opened TextScan
  import opened UrlSyntax

  /** The loop behind every run of one character class. */
  method RunEnd(s: string, i: nat, class_: CharClass) returns (j: nat)
    requires i <= |s|
    ensures j == Span(s, i, class_)
  {
    j := i;
    while j < |s| && Belongs(s[j], class_)
      invariant i <= j <= |s|
      invariant Span(s, i, class_) == Span(s, j, class_)
    {
      j := j + 1;
    }
  }

  method CountBackslashes(line: string, index: nat) returns (backslashes: nat)
    requires index <= |line|
    ensures backslashes == Backslashes(line, index)
  {
    backslashes := 0;
    var i := index;
    while i > 0 && line[i - 1] == '\\'
      invariant 0 <= i <= index
      invariant Backslashes(line, index) == backslashes + Backslashes(line, i)
    {
      i := i - 1;
      backslashes := backslashes + 1;
    }
  }

  method FindContentIndent(line: string) returns (r: Option<nat>)
    ensures r == ContentIndent(line)
  {
    var indent := 0;
    while indent < |line| && line[indent] == ' '
      invariant indent <= |line| && indent <= 3
      invariant Span(line, 0, Only(' ')) == Span(line, indent, Only(' '))
    {
      indent := indent + 1;
      if indent > 3 {
        return None;
      }
    }
    r := if indent < |line| then Some(indent) else None;
  }

  method FindFence(line: string) returns (f: FenceMark)
    ensures f == FenceOf(line)
  {
    var indent := FindContentIndent(line);
    if indent.None? {
      return FenceMark('\0', 0, 0);
    }
    var marker := line[indent.value];
    if marker != '`' && marker != '~' {
      return FenceMark('\0', 0, 0);
    }
    var end := RunEnd(line, indent.value, Only(marker));
    if end - indent.value < 3 {
      return FenceMark('\0', 0, 0);
    }
    f := FenceMark(marker, end - indent.value, end);
  }

  method FindDestination(line: string, start: nat) returns (r: Option<Range>)
    requires start <= |line|
    ensures r == Destination(line, start)
  {
    var p := RunEnd(line, start, Blank);
    if p >= |line| {
      return None;
    }
    if line[p] == '<' {
      var e := RunEnd(line, p + 1, Except('>'));
      return if e == |line| || e == p + 1 then None else Some(Range(p + 1, e));
    }
    var e := RunEnd(line, p, BareDestination);
    r := if e > p then Some(Range(p, e)) else None;
  }

  method FindTagEnd(line: string, start: nat) returns (r: Option<nat>)
    requires start < |line|
    ensures r == TagEnd(line, start + 1, '\0')
  {
    var quote := '\0';
    var index := start + 1;
    while index < |line|
      invariant start < index <= |line|
      invariant TagEnd(line, start + 1, '\0') == TagEnd(line, index, quote)
    {
      if quote != '\0' && line[index] == quote {
        quote := '\0';
      } else if quote == '\0' && IsQuote(line[index]) {
        quote := line[index];
      } else if quote == '\0' && line[index] == '>' {
        return Some(index);
      }
      index := index + 1;
    }
    r := None;
  }

  method FindValue(tag: string, p: nat) returns (v: AttributeValue)
    requires p <= |tag|
    ensures v == ValueAt(tag, p)
  {
    var index := RunEnd(tag, p, Blank);
    if index < |tag| && IsQuote(tag[index]) {
      var e := RunEnd(tag, index + 1, Except(tag[index]));
      return AttributeValue(index + 1, e, if e < |tag| then e + 1 else e);
    }
    var e := RunEnd(tag, index, BareValue);
    v := AttributeValue(index, e, e);
  }

  class Scanner {
    var fence: char
    var fenceWidth: nat
    var codeWidth: nat
    var inComment: bool
    var inHtmlCode: bool
    var ranges: seq<Range>

    function State(): Mode
      reads this
    {
      Mode(fence, fenceWidth, codeWidth, inComment, inHtmlCode)
    }

    constructor ()
      ensures State() == START && ranges == []
    {
      fence, fenceWidth, codeWidth, inComment, inHtmlCode, ranges := '\0', 0, 0, false, false, [];
    }

    method ConsumeAttribute(tag: string, offset: nat, start: nat, element: string) returns (index: nat)
      requires start < |tag|
      modifies this`ranges
      ensures index == AttributeAt(tag, start, element).next
      ensures ranges == old(ranges) + Shift(AttributeAt(tag, start, element).found, offset)
    {
      hide Span, ValueAt, Lower;
      assert Shift([], offset) == [];
      if !IsNameByte(tag[start]) {
        return start + 1;
      }
      var nameEnd := RunEnd(tag, start, Name);
      index := RunEnd(tag, nameEnd, Blank);
      if index >= |tag| || tag[index] != '=' {
        return;
      }
      var value := FindValue(tag, index + 1);
      index := value.next;
      if value.start == value.end || !IsResourceAttribute(element, Lower(tag[start..nameEnd])) {
        return;
      }
      ranges := ranges + [Range(offset + value.start, offset + value.end)];
    }

    method ScanAttributes(tag: string, offset: nat, start: nat, element: string)
      requires start <= |tag|
      modifies this`ranges
      ensures ranges == old(ranges) + Shift(AttributeRanges(tag, start, element), offset)
    {
      hide AttributeAt;
      var index := start;
      ghost var done: seq<Range> := [];
      while index < |tag|
        invariant start <= index <= |tag|
        invariant AttributeRanges(tag, start, element) == done + AttributeRanges(tag, index, element)
        invariant ranges == old(ranges) + Shift(done, offset)
        decreases |tag| - index
      {
        ghost var step := AttributeAt(tag, index, element);
        Extend(old(ranges), done, step.found, AttributeRanges(tag, step.next, element), offset);
        index := ConsumeAttribute(tag, offset, index, element);
        done := done + step.found;
      }
      assert done == AttributeRanges(tag, start, element);
    }

    /** A raw HTML tag at `index`; `handled` reports whether there was one. */
    method ConsumeTag(line: string, offset: nat, index: nat) returns (next: nat, handled: bool)
      requires index < |line|
      modifies this`inHtmlCode, this`ranges
      ensures handled == Tag(line, index, old(State())).Some?
      ensures !handled ==> State() == old(State()) && ranges == old(ranges)
      ensures handled ==>
        var step := Tag(line, index, old(State())).value;
        next == step.next && State() == step.mode && ranges == old(ranges) + Shift(step.found, offset)
    {
      if line[index] != '<' {
        return index, false;
      }
      var end := FindTagEnd(line, index);
      if end.None? {
        return 0, false;
      }
      var tag := line[..end.value];
      var closing := index + 1 < end.value && line[index + 1] == '/';
      var nameStart := if closing then index + 2 else index + 1;
      var nameEnd := RunEnd(tag, nameStart, Name);
      if nameEnd == nameStart {
        return 0, false;
      }
      var name := Lower(tag[nameStart..nameEnd]);
      if IsCodeElement(name) {
        inHtmlCode := !closing && !IsSelfClosing(tag[nameEnd..]);
      }
      if inHtmlCode || closing || !IsResourceElement(name) {
        assert Shift([], offset) == [];
        return end.value + 1, true;
      }
      ScanAttributes(tag, offset, nameEnd, name);
      return end.value + 1, true;
    }

    method ConsumeLink(line: string, offset: nat, index: nat) returns (next: nat, handled: bool)
      requires index < |line|
      modifies this`ranges
      ensures handled == Link(line, index).Some?
      ensures !handled ==> ranges == old(ranges)
      ensures handled ==>
        var location := Link(line, index).value;
        next == location.end && ranges == old(ranges) + Shift([location], offset)
    {
      if line[index] != ']' || index + 1 >= |line| || line[index + 1] != '(' || '[' !in line[..index] {
        return index, false;
      }
      var backslashes := CountBackslashes(line, index);
      if backslashes % 2 != 0 {
        return index, false;
      }
      var location := FindDestination(line, index + 2);
      if location.None? {
        return index, false;
      }
      ranges := ranges + [Range(offset + location.value.start, offset + location.value.end)];
      return location.value.end, true;
    }

    /** One round of the inline loop. */
    method ConsumeInline(line: string, offset: nat, index: nat) returns (next: nat)
      requires index < |line|
      modifies this
      ensures next == InlineStep(line, index, old(State())).next
      ensures State() == InlineStep(line, index, old(State())).mode
      ensures ranges == old(ranges) + Shift(InlineStep(line, index, old(State())).found, offset)
    {
      assert Shift([], offset) == [];
      if inComment {
        var end := IndexOf(line, index, "-->");
        if end.None? {
          return |line|;
        }
        inComment := false;
        return end.value + 3;
      }
      if codeWidth == 0 && StartsAt(line, index, "<!--") {
        inComment := true;
        return index + 4;
      }
      if line[index] == '`' {
        var end := RunEnd(line, index, Only('`'));
        var width := end - index;
        if codeWidth == 0 {
          codeWidth := width;
        } else if codeWidth == width {
          codeWidth := 0;
        }
        return end;
      }
      if codeWidth != 0 {
        return index + 1;
      }
      var handled;
      next, handled := ConsumeTag(line, offset, index);
      if handled {
        return;
      }
      if inHtmlCode {
        return index + 1;
      }
      next, handled := ConsumeLink(line, offset, index);
      if !handled {
        next := index + 1;
      }
    }

    method ScanInlineLine(line: string, offset: nat)
      modifies this
      ensures State() == ScanInline(line, 0, old(State())).mode
      ensures ranges == old(ranges) + Shift(ScanInline(line, 0, old(State())).found, offset)
    {
      hide InlineStep;
      var index := 0;
      ghost var done: seq<Range> := [];
      while index < |line|
        invariant index <= |line|
        invariant ScanInline(line, 0, old(State()))
               == Scan(ScanInline(line, index, State()).mode, done + ScanInline(line, index, State()).found)
        invariant ranges == old(ranges) + Shift(done, offset)
        decreases |line| - index
      {
        ghost var step := InlineStep(line, index, State());
        Extend(old(ranges), done, step.found, ScanInline(line, step.next, step.mode).found, offset);
        index := ConsumeInline(line, offset, index);
        done := done + step.found;
      }
      assert done == ScanInline(line, 0, old(State())).found;
    }

    method ScanDefinition(line: string, offset: nat) returns (found: bool)
      modifies this`ranges
      ensures found == Definition(line, State()).Some?
      ensures !found ==> ranges == old(ranges)
      ensures found ==> ranges == old(ranges) + Shift([Definition(line, State()).value], offset)
    {
      if codeWidth != 0 || inComment || inHtmlCode {
        return false;
      }
      var indent := FindContentIndent(line);
      if indent.None? || line[indent.value] != '[' {
        return false;
      }
      var closing := IndexOf(line, indent.value + 1, "]:");
      if closing.None? || closing.value <= indent.value + 1 {
        return false;
      }
      var location := FindDestination(line, closing.value + 2);
      if location.None? {
        return false;
      }
      ranges := ranges + [Range(offset + location.value.start, offset + location.value.end)];
      return true;
    }

    /** Fence state; reports whether the line is consumed by it. */
    method ConsumeFence(line: string) returns (consumed: bool)
      modifies this`fence, this`fenceWidth
      ensures consumed == (old(fenceWidth) != 0 || OpensFence(line, old(State())))
      ensures State() ==
        if old(fenceWidth) != 0 then
          if ClosesFence(line, old(State())) then old(State()).(fenceWidth := 0) else old(State())
        else if OpensFence(line, old(State())) then
          old(State()).(fence := FenceOf(line).marker, fenceWidth := FenceOf(line).width)
        else old(State())
    {
      var f := FindFence(line);
      if fenceWidth != 0 {
        if f.marker == fence && f.width >= fenceWidth && IsBlank(line[f.after..]) {
          fenceWidth := 0;
        }
        return true;
      }
      if f.width == 0 || codeWidth != 0 || inComment || inHtmlCode {
        return false;
      }
      fence, fenceWidth := f.marker, f.width;
      return true;
    }

    method ConsumeLine(line: string, offset: nat)
      modifies this
      ensures State() == ScanLine(line, old(State())).mode
      ensures ranges == old(ranges) + Shift(ScanLine(line, old(State())).found, offset)
    {
      assert Shift([], offset) == [];
      var consumed := ConsumeFence(line);
      if consumed || IsIndentedCode(line) {
        return;
      }
      var found := ScanDefinition(line, offset);
      if found {
        return;
      }
      ScanInlineLine(line, offset);
    }
  }

  /** Recording one more batch of line-relative ranges. */
  lemma Extend(base: seq<Range>, done: seq<Range>, found: seq<Range>, rest: seq<Range>, offset: nat)
    ensures base + Shift(done, offset) + Shift(found, offset) == base + Shift(done + found, offset)
    ensures done + (found + rest) == (done + found) + rest
  {
  }

  /** The destinations of a whole source, line by line. */
  method Ranges(source: string) returns (ranges: seq<Range>)
    ensures ranges == RangesOf(source)
  {
    hide ScanLine;
    var scanner := new Scanner();
    var start := 0;
    while start < |source|
      invariant RangesOf(source) == scanner.ranges + RangesFrom(source, start, scanner.State())
      decreases |source| - start
    {
      var end := RunEnd(source, start, Except('\n'));
      ghost var scan := ScanLine(source[start..end], scanner.State());
      Extend([], scanner.ranges, Shift(scan.found, start), RangesFrom(source, end + 1, scan.mode), 0);
      scanner.ConsumeLine(source[start..end], start);
      start := end + 1;
    }
    ranges := scanner.ranges;
  }
}
