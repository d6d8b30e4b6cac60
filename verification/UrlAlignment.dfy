/**
 Scanning depends on the text ahead: two lines that agree from some position on are scanned alike
 from there, whatever differs before, as long as the link label behind is seen alike.
 */
module UrlAlignment {
  import opened Options
  import opened TextScan
  import opened UrlSyntax
  import opened UrlRanges

  /** `s` from `i` on reads like `t` from `j` on. */
  ghost predicate Same(s: string, i: nat, t: string, j: nat) {
    i <= |s| && j <= |t| && s[i..] == t[j..]
  }

  lemma SameLater(s: string, i: nat, t: string, j: nat, k: nat)
    requires Same(s, i, t, j) && i + k <= |s|
    ensures i <= |s| && j <= |t| && |s| - i == |t| - j
    ensures Same(s, i + k, t, j + k)
    ensures i + k < |s| ==> s[i + k] == t[j + k]
  {
    assert |s[i..]| == |t[j..]|;
    assert s[i..][k..] == s[i + k..] && t[j..][k..] == t[j + k..];
    if i + k < |s| {
      assert s[i..][k] == t[j..][k];
    }
  }

  lemma SameSlice(s: string, i: nat, t: string, j: nat, k: nat, n: nat)
    requires Same(s, i, t, j) && k <= n && i + n <= |s|
    ensures |s| - i == |t| - j
    ensures s[i + k..i + n] == t[j + k..j + n]
    ensures Same(s[..i + n], i, t[..j + n], j)
  {
    assert |s[i..]| == |t[j..]|;
    assert s[i..][k..n] == s[i + k..i + n] && t[j..][k..n] == t[j + k..j + n];
    assert s[i..][..n] == s[..i + n][i..] && t[j..][..n] == t[..j + n][j..];
  }

  /** The run from `i` and the run from `j` end together. */
  lemma SpanSame(s: string, i: nat, t: string, j: nat, class_: CharClass) returns (n: nat)
    requires Same(s, i, t, j)
    ensures i <= |s| && j <= |t| && n == Span(s, i, class_) - i && Span(t, j, class_) == j + n && i + n <= |s|
    ensures |s| - i == |t| - j
    ensures Same(s, i + n, t, j + n)
    ensures i + n < |s| ==> s[i + n] == t[j + n]
  {
    SpanAligned(s, i, t, j, class_);
    n := Span(s, i, class_) - i;
    SameLater(s, i, t, j, n);
  }

  ghost predicate SameOption(r: Option<nat>, r': Option<nat>, d: int) {
    match r
    case None => r' == None
    case Some(x) => r'.Some? && r'.value == x + d
  }

  lemma {:induction false} TagEndSame(s: string, i: nat, t: string, j: nat, quote: char)
    requires Same(s, i, t, j)
    ensures SameOption(TagEnd(s, i, quote), TagEnd(t, j, quote), j - i)
    decreases |s| - i
  {
    SameLater(s, i, t, j, 0);
    if i < |s| {
      SameLater(s, i, t, j, 1);
      if quote != '\0' && s[i] == quote {
        TagEndSame(s, i + 1, t, j + 1, '\0');
      } else if quote == '\0' && IsQuote(s[i]) {
        TagEndSame(s, i + 1, t, j + 1, s[i]);
      } else if !(quote == '\0' && s[i] == '>') {
        TagEndSame(s, i + 1, t, j + 1, quote);
      }
    }
  }

  lemma {:induction false} IndexOfSame(s: string, i: nat, t: string, j: nat, target: string)
    requires Same(s, i, t, j)
    ensures SameOption(IndexOf(s, i, target), IndexOf(t, j, target), j - i)
    decreases |s| - i
  {
    SameLater(s, i, t, j, 0);
    if i < |s| && !StartsAt(s, i, target) {
      SameLater(s, i, t, j, 1);
      IndexOfSame(s, i + 1, t, j + 1, target);
    }
  }

  lemma DestinationSame(s: string, i: nat, t: string, j: nat)
    requires Same(s, i, t, j)
    ensures Destination(s, i).Some? <==> Destination(t, j).Some?
    ensures Destination(s, i).Some? ==>
      && Destination(t, j).value.start == Destination(s, i).value.start + j - i
      && Destination(t, j).value.end == Destination(s, i).value.end + j - i
  {
    hide Span, Same, Belongs;
    var n := SpanSame(s, i, t, j, Blank);
    var p, q := i + n, j + n;
    if p < |s| {
      if s[p] == '<' {
        SameLater(s, p, t, q, 1);
        var k := SpanSame(s, p + 1, t, q + 1, Except('>'));
      } else {
        var k := SpanSame(s, p, t, q, BareDestination);
      }
    }
  }

  lemma ValueSame(s: string, i: nat, t: string, j: nat)
    requires Same(s, i, t, j)
    ensures ValueAt(t, j).start - j == ValueAt(s, i).start - i
    ensures ValueAt(t, j).end - j == ValueAt(s, i).end - i
    ensures ValueAt(t, j).next - j == ValueAt(s, i).next - i
  {
    hide Span, Same, Belongs;
    var n := SpanSame(s, i, t, j, Blank);
    var p, q := i + n, j + n;
    if p < |s| && IsQuote(s[p]) {
      SameLater(s, p, t, q, 1);
      var k := SpanSame(s, p + 1, t, q + 1, Except(s[p]));
    } else {
      var k := SpanSame(s, p, t, q, BareValue);
    }
  }

  ghost predicate SameAttribute(a: AttributeStep, b: AttributeStep, d: int) {
    b.next == a.next + d && Slid(a.found, b.found, d)
  }

  lemma FoundValueSame(v: AttributeValue, w: AttributeValue, wanted: bool, d: int)
    requires w.start == v.start + d && w.end == v.end + d && w.next == v.next + d
    ensures SameAttribute(FoundValue(v, wanted), FoundValue(w, wanted), d)
  {
  }

  lemma NamedAttributeSame(s: string, i: nat, q: nat, t: string, j: nat, r: nat, element: string)
    requires Same(s, q, t, r) && i <= q <= |s| && j <= r <= |t| && s[i..q] == t[j..r]
    ensures SameAttribute(NamedAttribute(s, i, q, element), NamedAttribute(t, j, r, element), r - q)
  {
    hide Span, ValueAt, Lower, Slid, Same, IsResourceAttribute, FoundValue;
    SlidEmpty(r - q);
    var k := SpanSame(s, q, t, r, Blank);
    var eq, eq' := q + k, r + k;
    if eq < |s| && s[eq] == '=' {
      SameLater(s, eq, t, eq', 1);
      ValueSame(s, eq + 1, t, eq' + 1);
      FoundValueSame(ValueAt(s, eq + 1), ValueAt(t, eq' + 1), IsResourceAttribute(element, Lower(s[i..q])), r - q);
    }
  }

  lemma AttributeSame(s: string, i: nat, t: string, j: nat, element: string)
    requires Same(s, i, t, j) && i < |s|
    ensures |s| - i == |t| - j
    ensures SameAttribute(AttributeAt(s, i, element), AttributeAt(t, j, element), j - i)
  {
    hide Span, NamedAttribute, Slid, Same;
    SlidEmpty(j - i);
    SameLater(s, i, t, j, 0);
    if IsNameByte(s[i]) {
      var n := SpanSame(s, i, t, j, Name);
      SameSlice(s, i, t, j, 0, n);
      NamedAttributeSame(s, i, i + n, t, j, j + n, element);
    }
  }

  lemma {:induction false} AttributesSame(s: string, i: nat, t: string, j: nat, element: string)
    requires Same(s, i, t, j)
    ensures Slid(AttributeRanges(s, i, element), AttributeRanges(t, j, element), j - i)
    decreases |s| - i
  {
    hide AttributeAt, Slid;
    SameLater(s, i, t, j, 0);
    if i < |s| {
      AttributeSame(s, i, t, j, element);
      var a, b := AttributeAt(s, i, element), AttributeAt(t, j, element);
      SameLater(s, i, t, j, a.next - i);
      AttributesSame(s, a.next, t, b.next, element);
      SlidConcat(a.found, b.found, AttributeRanges(s, a.next, element), AttributeRanges(t, b.next, element), j - i);
    } else {
      SlidEmpty(j - i);
    }
  }

  ghost predicate SameStep(a: Step, b: Step, d: int) {
    b.next == a.next + d && b.mode == a.mode && Slid(a.found, b.found, d)
  }

  lemma TagBodySame(s: string, q: nat, t: string, r: nat, name: string, closing: bool, m: Mode)
    requires Same(s, q, t, r)
    ensures SameStep(TagBody(s, q, name, closing, m), TagBody(t, r, name, closing, m), r - q)
  {
    hide AttributeRanges, IsSelfClosing, Slid;
    SlidEmpty(r - q);
    SameLater(s, q, t, r, 0);
    AttributesSame(s, q, t, r, name);
  }

  lemma NamedTagSame(s: string, i: nat, t: string, j: nat, m: Mode)
    requires Same(s, i, t, j) && i < |s|
    ensures |s| - i == |t| - j
    ensures NamedTag(s, i, m).Some? <==> NamedTag(t, j, m).Some?
    ensures NamedTag(s, i, m).Some? ==> SameStep(NamedTag(s, i, m).value, NamedTag(t, j, m).value, j - i)
  {
    hide Span, Lower, TagBody, Same, SameStep;
    SameLater(s, i, t, j, 0);
    SameLater(s, i, t, j, 1);
    var closing := i + 1 < |s| && s[i + 1] == '/';
    var k := if closing then 2 else 1;
    SameLater(s, i, t, j, k);
    var n := SpanSame(s, i + k, t, j + k, Name);
    SameSlice(s, i + k, t, j + k, 0, n);
    TagBodySame(s, i + k + n, t, j + k + n, Lower(s[i + k..i + k + n]), closing, m);
  }

  lemma TagSame(s: string, i: nat, t: string, j: nat, m: Mode)
    requires Same(s, i, t, j) && i < |s|
    ensures |s| - i == |t| - j
    ensures Tag(s, i, m).Some? <==> Tag(t, j, m).Some?
    ensures Tag(s, i, m).Some? ==> SameStep(Tag(s, i, m).value, Tag(t, j, m).value, j - i)
  {
    hide NamedTag, TagEnd, Same, SameStep;
    SameLater(s, i, t, j, 0);
    SameLater(s, i, t, j, 1);
    TagEndSame(s, i + 1, t, j + 1, '\0');
    if s[i] == '<' && TagEnd(s, i + 1, '\0').Some? {
      var n := TagEnd(s, i + 1, '\0').value - i;
      SameSlice(s, i, t, j, 0, n);
      NamedTagSame(s[..i + n], i, t[..j + n], j, m);
    }
  }

  /** Text behind two positions that a link label closing there reads alike. */
  ghost predicate SameBehind(s: string, i: nat, t: string, j: nat) {
    i <= |s| && j <= |t| && ('[' in s[..i] <==> '[' in t[..j]) && Backslashes(s, i) == Backslashes(t, j)
  }

  lemma ElementSame(s: string, i: nat, t: string, j: nat, m: Mode)
    requires Same(s, i, t, j) && i < |s| && SameBehind(s, i, t, j)
    ensures |s| - i == |t| - j
    ensures SameStep(ElementStep(s, i, m), ElementStep(t, j, m), j - i)
  {
    hide Tag, Destination, Slid, Backslashes, Same;
    SlidEmpty(j - i);
    SameLater(s, i, t, j, 0);
    SameLater(s, i, t, j, 1);
    TagSame(s, i, t, j, m);
    if i + 1 < |s| {
      SameLater(s, i, t, j, 2);
      DestinationSame(s, i + 2, t, j + 2);
      if Destination(s, i + 2).Some? {
        SlidOne(Destination(s, i + 2).value, Destination(t, j + 2).value, j - i);
      }
    }
  }

  lemma StepSame(s: string, i: nat, t: string, j: nat, m: Mode)
    requires Same(s, i, t, j) && i < |s| && SameBehind(s, i, t, j)
    ensures |s| - i == |t| - j
    ensures SameStep(InlineStep(s, i, m), InlineStep(t, j, m), j - i)
  {
    hide Span, Slid, IndexOf, Backslashes, ElementStep;
    SlidEmpty(j - i);
    SameLater(s, i, t, j, 0);
    IndexOfSame(s, i, t, j, "-->");
    var n := SpanSame(s, i, t, j, Only('`'));
    ElementSame(s, i, t, j, m);
  }

  /** Looking back from a later position. */
  lemma {:induction false} BehindLater(s: string, i: nat, t: string, j: nat, k: nat)
    requires Same(s, i, t, j) && SameBehind(s, i, t, j) && i + k <= |s|
    ensures |s| - i == |t| - j
    ensures SameBehind(s, i + k, t, j + k)
  {
    SameLater(s, i, t, j, 0);
    if k > 0 {
      BehindLater(s, i, t, j, k - 1);
      SameLater(s, i, t, j, k - 1);
      assert s[..i + k] == s[..i + k - 1] + [s[i + k - 1]];
      assert t[..j + k] == t[..j + k - 1] + [t[j + k - 1]];
    }
  }

  lemma {:induction false} InlineSame(s: string, i: nat, t: string, j: nat, m: Mode)
    requires Same(s, i, t, j) && SameBehind(s, i, t, j)
    ensures ScanInline(t, j, m).mode == ScanInline(s, i, m).mode
    ensures Slid(ScanInline(s, i, m).found, ScanInline(t, j, m).found, j - i)
    decreases |s| - i
  {
    hide InlineStep, Slid, SameBehind;
    SameLater(s, i, t, j, 0);
    if i < |s| {
      StepSame(s, i, t, j, m);
      var a, b := InlineStep(s, i, m), InlineStep(t, j, m);
      SameLater(s, i, t, j, a.next - i);
      BehindLater(s, i, t, j, a.next - i);
      InlineSame(s, a.next, t, b.next, a.mode);
      SlidConcat(a.found, b.found, ScanInline(s, a.next, a.mode).found, ScanInline(t, b.next, b.mode).found, j - i);
    } else {
      SlidEmpty(j - i);
    }
  }
}
