/**
 Replacing one destination of a line by another, both plain, changes nothing in how the rest of the
 line is scanned: the same destinations are found, at the positions the replacement moves them to.
 */
module UrlSubstitution {
  import opened Options
  import opened TextScan
  import opened UrlSyntax
  import opened UrlRanges
  import opened UrlAlignment

  predicate PlainChar(c: char) {
    IsAlphanumeric(c) || c == '/' || c == '.' || c == '_' || c == '-'
  }

  /** A non-empty text of ASCII letters, digits and `/ . _ -`. */
  predicate Plain(s: string) {
    s != "" && forall k :: 0 <= k < |s| ==> PlainChar(s[k])
  }

  /** `t` is `s` with the plain text of `[a, b)` replaced by a plain text that is `d` characters longer. */
  ghost predicate Swapped(s: string, t: string, a: nat, b: nat, d: int) {
    && a < b <= |s| && a < b + d && |t| == |s| + d
    && (forall k :: 0 <= k < a ==> s[k] == t[k])
    && s[b..] == t[b + d..]
    && (forall k :: a <= k < b ==> PlainChar(s[k]))
    && (forall k :: a <= k < b + d ==> PlainChar(t[k]))
  }

  /** Where a position outside the replaced text goes. */
  function Move(x: int, a: nat, d: int): int {
    if x <= a then x else x + d
  }

  ghost predicate Moved(rs: seq<Range>, rs': seq<Range>, a: nat, d: int) {
    |rs| == |rs'| &&
    forall k :: 0 <= k < |rs| ==> rs'[k].start == Move(rs[k].start, a, d) && rs'[k].end == Move(rs[k].end, a, d)
  }

  lemma MovedConcat(x: seq<Range>, x': seq<Range>, y: seq<Range>, y': seq<Range>, a: nat, d: int)
    requires Moved(x, x', a, d) && Moved(y, y', a, d)
    ensures Moved(x + y, x' + y', a, d)
  {
  }

  lemma MovedOne(r: Range, r': Range, a: nat, d: int)
    requires r'.start == Move(r.start, a, d) && r'.end == Move(r.end, a, d)
    ensures Moved([r], [r'], a, d)
  {
  }

  /** Ranges that all lie before the replaced text stay. */
  lemma MovedBefore(rs: seq<Range>, lo: int, hi: int, a: nat, d: int)
    requires Ordered(rs, lo, hi) && hi <= a
    ensures Moved(rs, rs, a, d)
  {
  }

  /** Ranges that all lie behind the replaced text slide. */
  lemma MovedBehind(rs: seq<Range>, rs': seq<Range>, lo: int, hi: int, a: nat, d: int)
    requires Ordered(rs, lo, hi) && a < lo && Slid(rs, rs', d)
    ensures Moved(rs, rs', a, d)
  {
  }

  lemma SwappedAt(s: string, t: string, a: nat, b: nat, d: int, k: nat)
    requires Swapped(s, t, a, b, d) && (k < a || b <= k <= |s|)
    ensures k < a ==> s[k] == t[k]
    ensures b <= k ==> Same(s, k, t, k + d)
    ensures b <= k < |s| ==> s[k] == t[k + d]
  {
    if b <= k {
      assert Same(s, b, t, b + d);
      SameLater(s, b, t, b + d, k - b);
    }
  }

  /** Cutting both texts behind the replaced part keeps the relation. */
  lemma SwappedCut(s: string, t: string, a: nat, b: nat, d: int, n: nat)
    requires Swapped(s, t, a, b, d) && b <= n <= |s|
    ensures Swapped(s[..n], t[..n + d], a, b, d)
  {
    assert s[b..][..n - b] == s[..n][b..];
    assert t[b + d..][..n - b] == t[..n + d][b + d..];
  }

  ghost predicate Rejects(class_: CharClass) {
    forall c :: PlainChar(c) ==> !Belongs(c, class_)
  }

  ghost predicate Absorbs(class_: CharClass) {
    forall c :: PlainChar(c) ==> Belongs(c, class_)
  }

  /** A run of a class that no plain character belongs to ends at the replaced text or before. */
  lemma SpanRejected(s: string, t: string, a: nat, b: nat, d: int, i: nat, class_: CharClass)
    requires Swapped(s, t, a, b, d) && i <= a && Rejects(class_)
    ensures Span(t, i, class_) == Span(s, i, class_) <= a
  {
    SpanRun(s, i, class_);
    assert !Belongs(s[a], class_) && !Belongs(t[a], class_);
    SpanIs(t, i, class_, Span(s, i, class_));
  }

  /** A run that stops before the replaced text stops there in both texts. */
  lemma SpanStops(s: string, t: string, a: nat, b: nat, d: int, i: nat, class_: CharClass)
    requires Swapped(s, t, a, b, d) && i <= a && Span(s, i, class_) < a
    ensures Span(t, i, class_) == Span(s, i, class_)
  {
    SpanRun(s, i, class_);
    SpanIs(t, i, class_, Span(s, i, class_));
  }

  /** A run of a class that holds all plain characters stops before the replaced text or passes it. */
  lemma SpanAbsorbed(s: string, t: string, a: nat, b: nat, d: int, i: nat, class_: CharClass)
    requires Swapped(s, t, a, b, d) && i <= a && Absorbs(class_)
    ensures Span(s, i, class_) < a || Span(s, i, class_) >= b
    ensures Span(t, i, class_) == Move(Span(s, i, class_), a, d)
  {
    SpanRun(s, i, class_);
    var j := Span(s, i, class_);
    if j < a {
      SpanIs(t, i, class_, j);
    } else {
      assert j >= b;
      forall k | i <= k < j + d
        ensures Belongs(t[k], class_)
      {
        if k >= b + d {
          SwappedAt(s, t, a, b, d, k - d);
        }
      }
      SwappedAt(s, t, a, b, d, j);
      SpanIs(t, i, class_, j + d);
    }
  }

  ghost predicate MovedOption(r: Option<nat>, r': Option<nat>, a: nat, d: int) {
    match r
    case None => r' == None
    case Some(x) => r'.Some? && r'.value == Move(x, a, d)
  }

  /** Plain characters leave the search for a tag's end as it is. */
  lemma {:induction false} TagEndSkips(s: string, i: nat, j: nat, quote: char)
    requires i <= j <= |s| && (quote == '\0' || IsQuote(quote))
    requires forall k :: i <= k < j ==> PlainChar(s[k])
    ensures TagEnd(s, i, quote) == TagEnd(s, j, quote)
    decreases j - i
  {
    if i < j {
      TagEndSkips(s, i + 1, j, quote);
    }
  }

  lemma {:induction false} TagEndMoved(s: string, t: string, a: nat, b: nat, d: int, i: nat, quote: char)
    requires Swapped(s, t, a, b, d) && i <= a && (quote == '\0' || IsQuote(quote))
    ensures MovedOption(TagEnd(s, i, quote), TagEnd(t, i, quote), a, d)
    ensures TagEnd(s, i, quote).Some? ==> TagEnd(s, i, quote).value < a || TagEnd(s, i, quote).value >= b
    decreases a - i
  {
    if i == a {
      TagEndSkips(s, a, b, quote);
      TagEndSkips(t, a, b + d, quote);
      SwappedAt(s, t, a, b, d, b);
      TagEndSame(s, b, t, b + d, quote);
    } else if quote != '\0' && s[i] == quote {
      TagEndMoved(s, t, a, b, d, i + 1, '\0');
    } else if quote == '\0' && IsQuote(s[i]) {
      TagEndMoved(s, t, a, b, d, i + 1, s[i]);
    } else if !(quote == '\0' && s[i] == '>') {
      TagEndMoved(s, t, a, b, d, i + 1, quote);
    }
  }

  /** An occurrence that ends before the replaced text is found in both texts. */
  lemma {:induction false} IndexOfStops(s: string, t: string, a: nat, i: nat, target: string)
    requires i <= a <= |s| && a <= |t| && s[..a] == t[..a]
    requires IndexOf(s, i, target).Some? && IndexOf(s, i, target).value + |target| <= a
    ensures IndexOf(t, i, target) == IndexOf(s, i, target)
    decreases a - i
  {
    hide StartsAt;
    StartsAlike(s, t, a, i, target);
    if !StartsAt(s, i, target) {
      IndexOfStops(s, t, a, i + 1, target);
    }
  }

  lemma StartsAlike(s: string, t: string, a: nat, i: nat, target: string)
    requires a <= |s| && a <= |t| && s[..a] == t[..a] && i + |target| <= a
    ensures StartsAt(s, i, target) <==> StartsAt(t, i, target)
  {
    var n := |target|;
    assert s[i..][..n] == s[..a][i..i + n];
    assert t[i..][..n] == t[..a][i..i + n];
  }

  predicate Closes(s: string, k: nat)
    requires k <= |s|
  {
    k + 1 < |s| && s[k] == ']' && s[k + 1] == ':'
  }

  lemma ClosesIs(s: string, k: nat)
    requires k <= |s|
    ensures StartsAt(s, k, "]:") <==> Closes(s, k)
  {
    if StartsAt(s, k, "]:") {
      assert s[k..][0] == ']' && s[k..][1] == ':';
    }
    if Closes(s, k) {
      assert s[k..][..2] == "]:";
    }
  }

  /** No definition label closes inside plain text. */
  lemma {:induction false} ClosingSkips(s: string, i: nat, j: nat)
    requires i <= j <= |s| && forall k :: i <= k < j ==> PlainChar(s[k])
    ensures IndexOf(s, i, "]:") == IndexOf(s, j, "]:")
    decreases j - i
  {
    if i < j {
      ClosesIs(s, i);
      ClosingSkips(s, i + 1, j);
    }
  }

  lemma ClosesAlike(s: string, t: string, a: nat, b: nat, d: int, i: nat)
    requires Swapped(s, t, a, b, d) && i < a
    ensures Closes(s, i) <==> Closes(t, i)
    ensures Closes(s, i) ==> i + 1 < a
  {
    assert PlainChar(s[a]) && PlainChar(t[a]);
  }

  lemma {:induction false} ClosingMoved(s: string, t: string, a: nat, b: nat, d: int, i: nat)
    requires Swapped(s, t, a, b, d) && i <= a
    ensures MovedOption(IndexOf(s, i, "]:"), IndexOf(t, i, "]:"), a, d)
    ensures IndexOf(s, i, "]:").Some? ==> IndexOf(s, i, "]:").value + 1 < a || IndexOf(s, i, "]:").value >= b
    decreases a - i
  {
    hide StartsAt;
    if i == a {
      ClosingSkips(s, a, b);
      ClosingSkips(t, a, b + d);
      SwappedAt(s, t, a, b, d, b);
      IndexOfSame(s, b, t, b + d, "]:");
    } else {
      ClosesIs(s, i);
      ClosesIs(t, i);
      ClosesAlike(s, t, a, b, d, i);
      if !Closes(s, i) {
        ClosingMoved(s, t, a, b, d, i + 1);
      }
    }
  }

  ghost predicate MovedRange(r: Option<Range>, r': Option<Range>, a: nat, d: int) {
    match r
    case None => r' == None
    case Some(x) => r'.Some? && r'.value.start == Move(x.start, a, d) && r'.value.end == Move(x.end, a, d)
  }

  lemma DestinationMoved(s: string, t: string, a: nat, b: nat, d: int, i: nat)
    requires Swapped(s, t, a, b, d) && i <= a
    ensures MovedRange(Destination(s, i), Destination(t, i), a, d)
  {
    hide Span;
    SpanRejected(s, t, a, b, d, i, Blank);
    var p := Span(s, i, Blank);
    assert p == a ==> PlainChar(s[a]) && PlainChar(t[a]);
    if s[p] == '<' {
      SpanAbsorbed(s, t, a, b, d, p + 1, Except('>'));
    } else {
      SpanAbsorbed(s, t, a, b, d, p, BareDestination);
    }
  }

  lemma ValueMoved(s: string, t: string, a: nat, b: nat, d: int, p: nat)
    requires Swapped(s, t, a, b, d) && p <= a
    ensures ValueAt(t, p).start == ValueAt(s, p).start <= a
    ensures ValueAt(s, p).end < a || ValueAt(s, p).end >= b
    ensures ValueAt(t, p).end == Move(ValueAt(s, p).end, a, d)
    ensures ValueAt(t, p).next == Move(ValueAt(s, p).next, a, d)
  {
    hide Span;
    SpanRejected(s, t, a, b, d, p, Blank);
    var q := Span(s, p, Blank);
    assert q == a ==> PlainChar(s[a]) && PlainChar(t[a]);
    if IsQuote(s[q]) {
      SpanAbsorbed(s, t, a, b, d, q + 1, Except(s[q]));
    } else {
      SpanAbsorbed(s, t, a, b, d, q, BareValue);
    }
  }

  ghost predicate MovedAttribute(x: AttributeStep, y: AttributeStep, a: nat, d: int) {
    y.next == Move(x.next, a, d) && Moved(x.found, y.found, a, d)
  }

  lemma NamedAttributeMoved(s: string, t: string, a: nat, b: nat, d: int, p: nat, q: nat, element: string)
    requires Swapped(s, t, a, b, d) && p <= q < a && s[p..q] == t[p..q]
    ensures MovedAttribute(NamedAttribute(s, p, q, element), NamedAttribute(t, p, q, element), a, d)
  {
    hide Span, ValueAt, Lower, IsResourceAttribute;
    SpanRejected(s, t, a, b, d, q, Blank);
    var eq := Span(s, q, Blank);
    assert eq == a ==> PlainChar(s[a]) && PlainChar(t[a]);
    if s[eq] == '=' {
      ValueMoved(s, t, a, b, d, eq + 1);
      var v, w := ValueAt(s, eq + 1), ValueAt(t, eq + 1);
      assert v.start == v.end <==> w.start == w.end;
    }
  }

  /** The name of a tag or an attribute ends before an introducing character. */
  lemma NameStops(s: string, t: string, a: nat, b: nat, d: int, i: nat)
    requires Swapped(s, t, a, b, d) && i < a && Introduces(s[a - 1])
    ensures Span(s, i, Name) == Span(t, i, Name) < a
    ensures s[i..Span(s, i, Name)] == t[i..Span(s, i, Name)]
  {
    SpanRun(s, i, Name);
    assert !Belongs(s[a - 1], Name);
    SpanStops(s, t, a, b, d, i, Name);
  }

  lemma AttributeMoved(s: string, t: string, a: nat, b: nat, d: int, p: nat, element: string)
    requires Swapped(s, t, a, b, d) && p < a && Introduces(s[a - 1])
    ensures MovedAttribute(AttributeAt(s, p, element), AttributeAt(t, p, element), a, d)
  {
    hide Span, NamedAttribute;
    if IsNameByte(s[p]) {
      NameStops(s, t, a, b, d, p);
      NamedAttributeMoved(s, t, a, b, d, p, Span(s, p, Name), element);
    }
  }

  lemma {:induction false} AttributesMoved(s: string, t: string, a: nat, b: nat, d: int, p: nat, element: string)
    requires Swapped(s, t, a, b, d) && p <= |s| && Range(a, b) in AttributeRanges(s, p, element)
    ensures p < a && Moved(AttributeRanges(s, p, element), AttributeRanges(t, p, element), a, d)
    decreases |s| - p
  {
    hide AttributeAt, Moved, Ordered, Swapped;
    var x := AttributeAt(s, p, element);
    var rest := AttributeRanges(s, x.next, element);
    AttributesFound(s, p, element);
    AttributesFound(s, x.next, element);
    AttributeFound(s, p, element);
    AttributeMoved(s, t, a, b, d, p, element);
    var y := AttributeAt(t, p, element);
    if x.next <= a {
      OrderedMember(x.found, p + 2, x.next, Range(a, b));
      AttributesMoved(s, t, a, b, d, x.next, element);
      MovedConcat(x.found, y.found, rest, AttributeRanges(t, y.next, element), a, d);
    } else {
      OrderedMember(rest, x.next + 2, |s|, Range(a, b));
      OrderedMember(x.found, p + 2, x.next, Range(a, b));
      SwappedAt(s, t, a, b, d, x.next);
      AttributesSame(s, x.next, t, y.next, element);
      MovedBehind(rest, AttributeRanges(t, y.next, element), x.next + 2, |s|, a, d);
      MovedConcat(x.found, y.found, rest, AttributeRanges(t, y.next, element), a, d);
    }
  }

  lemma OrderedMember(rs: seq<Range>, lo: int, hi: int, r: Range)
    requires Ordered(rs, lo, hi)
    ensures r in rs ==> lo <= r.start < r.end <= hi
  {
  }

  ghost predicate MovedStep(x: Step, y: Step, a: nat, d: int) {
    y.next == Move(x.next, a, d) && y.mode == x.mode && Moved(x.found, y.found, a, d)
  }

  lemma TagBodyMoved(s: string, t: string, a: nat, b: nat, d: int, q: nat, name: string, closing: bool, m: Mode)
    requires Swapped(s, t, a, b, d) && q < a
    requires Range(a, b) in TagBody(s, q, name, closing, m).found
    ensures MovedStep(TagBody(s, q, name, closing, m), TagBody(t, q, name, closing, m), a, d)
  {
    hide AttributeRanges, IsSelfClosing, Moved;
    AttributesMoved(s, t, a, b, d, q, name);
  }

  lemma NamedTagMoved(s: string, t: string, a: nat, b: nat, d: int, i: nat, m: Mode)
    requires Swapped(s, t, a, b, d) && i + 2 <= a && Introduces(s[a - 1])
    requires NamedTag(s, i, m).Some? ==> Range(a, b) in NamedTag(s, i, m).value.found
    ensures NamedTag(s, i, m).Some? <==> NamedTag(t, i, m).Some?
    ensures NamedTag(s, i, m).Some? ==> MovedStep(NamedTag(s, i, m).value, NamedTag(t, i, m).value, a, d)
  {
    hide TagBody, Span, Lower, MovedStep;
    var closing := s[i + 1] == '/';
    var nameStart := if closing then i + 2 else i + 1;
    assert s[i + 1] == t[i + 1];
    NameStops(s, t, a, b, d, nameStart);
    var nameEnd := Span(s, nameStart, Name);
    if nameEnd != nameStart {
      TagBodyMoved(s, t, a, b, d, nameEnd, Lower(s[nameStart..nameEnd]), closing, m);
    }
  }

  lemma TagMoved(s: string, t: string, a: nat, b: nat, d: int, i: nat, m: Mode)
    requires Swapped(s, t, a, b, d) && i + 2 <= a && Introduces(s[a - 1])
    requires Tag(s, i, m).Some? && Tag(s, i, m).value.next > a ==> Range(a, b) in Tag(s, i, m).value.found
    ensures Tag(s, i, m).Some? <==> Tag(t, i, m).Some?
    ensures Tag(s, i, m).Some? ==> MovedStep(Tag(s, i, m).value, Tag(t, i, m).value, a, d)
  {
    hide NamedTag, TagEnd, MovedStep;
    TagEndMoved(s, t, a, b, d, i + 1, '\0');
    if s[i] == '<' && TagEnd(s, i + 1, '\0').Some? {
      var end := TagEnd(s, i + 1, '\0').value;
      if end < a {
        assert s[..end] == t[..end];
        if Tag(s, i, m).Some? {
          TagFound(s, i, m);
          StepStays(Tag(s, i, m).value, i + 2, a, d);
        }
      } else {
        SwappedCut(s, t, a, b, d, end);
        NamedTagMoved(s[..end], t[..end + d], a, b, d, i, m);
      }
    }
  }

  lemma StepStays(x: Step, lo: int, a: nat, d: int)
    requires x.next <= a && Ordered(x.found, lo, x.next)
    ensures MovedStep(x, x, a, d)
  {
  }

  lemma {:induction false} BackslashesStay(s: string, t: string, i: nat)
    requires i <= |s| && i <= |t| && forall k :: 0 <= k < i ==> s[k] == t[k]
    ensures Backslashes(t, i) == Backslashes(s, i)
  {
    if i > 0 && s[i - 1] == '\\' {
      BackslashesStay(s, t, i - 1);
    }
  }

  lemma LinkMoved(s: string, t: string, a: nat, b: nat, d: int, i: nat)
    requires Swapped(s, t, a, b, d) && i + 2 <= a
    ensures MovedRange(Link(s, i), Link(t, i), a, d)
  {
    hide Destination, Backslashes;
    assert s[i] == t[i] && s[i + 1] == t[i + 1];
    assert s[..i] == t[..i];
    BackslashesStay(s, t, i);
    DestinationMoved(s, t, a, b, d, i + 2);
  }

  lemma ElementMoved(s: string, t: string, a: nat, b: nat, d: int, i: nat, m: Mode)
    requires Swapped(s, t, a, b, d) && i + 2 <= a && Introduces(s[a - 1])
    requires ElementStep(s, i, m).next > a ==> Range(a, b) in ElementStep(s, i, m).found
    ensures MovedStep(ElementStep(s, i, m), ElementStep(t, i, m), a, d)
  {
    hide Tag, Link;
    TagMoved(s, t, a, b, d, i, m);
    LinkMoved(s, t, a, b, d, i);
  }

  /** Replacing a plain text behind an introducing character opens or hides no comment. */
  lemma CommentOpens(s: string, t: string, a: nat, b: nat, d: int, i: nat)
    requires Swapped(s, t, a, b, d) && i + 2 <= a && Introduces(s[a - 1])
    ensures StartsAt(s, i, "<!--") <==> StartsAt(t, i, "<!--")
  {
    OpensIs(s, i);
    OpensIs(t, i);
    assert s[i] == t[i] && s[i + 1] == t[i + 1] && s[a - 1] == t[a - 1];
    assert a > i + 2 ==> s[i + 2] == t[i + 2];
    assert a > i + 3 ==> s[i + 3] == t[i + 3];
  }

  lemma OpensIs(s: string, k: nat)
    requires k <= |s|
    ensures StartsAt(s, k, "<!--") <==> k + 4 <= |s| && s[k] == '<' && s[k + 1] == '!' && s[k + 2] == '-' && s[k + 3] == '-'
  {
    if StartsAt(s, k, "<!--") {
      assert s[k..][0] == '<' && s[k..][1] == '!' && s[k..][2] == '-' && s[k..][3] == '-';
    }
    if k + 4 <= |s| && s[k] == '<' && s[k + 1] == '!' && s[k + 2] == '-' && s[k + 3] == '-' {
      assert s[k..][..4] == "<!--";
    }
  }

  lemma StepMoved(s: string, t: string, a: nat, b: nat, d: int, i: nat, m: Mode)
    requires Swapped(s, t, a, b, d) && i + 2 <= a && Introduces(s[a - 1])
    requires InlineStep(s, i, m).next > a ==> Range(a, b) in InlineStep(s, i, m).found
    ensures MovedStep(InlineStep(s, i, m), InlineStep(t, i, m), a, d)
  {
    hide ElementStep, IndexOf, Span, StartsAt;
    CommentOpens(s, t, a, b, d, i);
    assert s[i] == t[i];
    if m.inComment {
      if IndexOf(s, i, "-->").Some? {
        assert s[..a] == t[..a];
        IndexOfStops(s, t, a, i, "-->");
      }
    } else if m.codeWidth == 0 && StartsAt(s, i, "<!--") {
    } else if s[i] == '`' {
      SpanRejected(s, t, a, b, d, i, Only('`'));
    } else if m.codeWidth == 0 {
      ElementMoved(s, t, a, b, d, i, m);
    }
  }

  /** Behind the replaced text both lines are read back alike. */
  lemma BehindSwap(s: string, t: string, a: nat, b: nat, d: int, k: nat)
    requires Swapped(s, t, a, b, d) && b <= k <= |s|
    ensures Same(s, k, t, k + d) && SameBehind(s, k, t, k + d)
  {
    SwappedAt(s, t, a, b, d, b);
    assert PlainChar(s[b - 1]) && PlainChar(t[b + d - 1]);
    assert '[' in s[..b] <==> '[' in t[..b + d] by {
      assert forall i :: 0 <= i < b ==> (s[i] == '[' ==> i < a && t[i] == '[');
      assert forall i :: 0 <= i < b + d ==> (t[i] == '[' ==> i < a && s[i] == '[');
    }
    BehindLater(s, b, t, b + d, k - b);
    SwappedAt(s, t, a, b, d, k);
  }

  /** The inline scan of a line in which one found destination was replaced. */
  lemma InlineUnfold(line: string, i: nat, m: Mode)
    requires i <= |line|
    ensures ScanInline(line, i, m).found != [] ==> i < |line|
    ensures i < |line| ==> var step := InlineStep(line, i, m);
      var rest := ScanInline(line, step.next, step.mode);
      ScanInline(line, i, m) == Scan(rest.mode, step.found + rest.found)
  {
    hide InlineStep;
  }

  lemma {:induction false} InlineMoved(s: string, t: string, a: nat, b: nat, d: int, i: nat, m: Mode)
    requires Swapped(s, t, a, b, d) && i <= |s| && Range(a, b) in ScanInline(s, i, m).found
    ensures i + 2 <= a < |t|
    ensures ScanInline(t, i, m).mode == ScanInline(s, i, m).mode
    ensures Moved(ScanInline(s, i, m).found, ScanInline(t, i, m).found, a, d)
    decreases |s| - i
  {
    hide InlineStep, Moved, Ordered, Swapped, ScanInline;
    SwappedSize(s, t, a, b, d);
    InlineUnfold(s, i, m);
    var x := InlineStep(s, i, m);
    var rest := ScanInline(s, x.next, x.mode).found;
    InlineFound(s, i, m);
    InlineFound(s, x.next, x.mode);
    StepFound(s, i, m);
    OrderedMember(x.found, i + 2, x.next, Range(a, b));
    OrderedMember(rest, x.next + 2, |s|, Range(a, b));
    StepMoved(s, t, a, b, d, i, m);
    var y := InlineStep(t, i, m);
    var rest' := ScanInline(t, y.next, y.mode).found;
    InlineUnfold(t, i, m);
    if x.next <= a {
      InlineMoved(s, t, a, b, d, x.next, x.mode);
    } else {
      BehindSwap(s, t, a, b, d, x.next);
      InlineSame(s, x.next, t, y.next, x.mode);
      MovedBehind(rest, rest', x.next + 2, |s|, a, d);
    }
    MovedConcat(x.found, y.found, rest, rest', a, d);
  }

  lemma IndentedIs(s: string)
    ensures IsIndentedCode(s) <==> (s != "" && s[0] == '\t') || Span(s, 0, Only(' ')) >= 4
  {
    SpanRun(s, 0, Only(' '));
    if "    " <= s {
      assert forall k :: 0 <= k < 4 ==> s[k] == "    "[k];
    }
    if Span(s, 0, Only(' ')) >= 4 {
      assert s[..4] == "    ";
    }
  }

  /** With a visible character before the replaced text, the line opens alike. */
  lemma LineStartStays(s: string, t: string, a: nat, b: nat, d: int, k: nat)
    requires Swapped(s, t, a, b, d) && k < a && s[k] != ' '
    ensures ContentIndent(t) == ContentIndent(s)
    ensures ContentIndent(s).Some? ==> ContentIndent(s).value <= k
    ensures FenceOf(t).width == FenceOf(s).width
    ensures IsIndentedCode(t) <==> IsIndentedCode(s)
  {
    SpanRun(s, 0, Only(' '));
    assert Span(s, 0, Only(' ')) <= k;
    SpanStops(s, t, a, b, d, 0, Only(' '));
    IndentedIs(s);
    IndentedIs(t);
    match ContentIndent(s)
    case None =>
    case Some(indent) =>
      assert s[indent] == t[indent];
      if s[indent] == '`' || s[indent] == '~' {
        SpanRejected(s, t, a, b, d, indent, Only(s[indent]));
      }
  }

  lemma DefinitionMoved(s: string, t: string, a: nat, b: nat, d: int, k: nat, m: Mode)
    requires Swapped(s, t, a, b, d) && k < a && s[k] != ' '
    requires Definition(s, m).None? || Definition(s, m).value == Range(a, b)
    ensures Definition(s, m).None? ==> Definition(t, m).None?
    ensures Definition(s, m).Some? ==> Definition(t, m).Some? && Definition(t, m).value.start == a && Definition(t, m).value.end == b + d
  {
    hide Destination, IndexOf, ContentIndent;
    LineStartStays(s, t, a, b, d, k);
    if ContentIndent(s).Some? {
      var indent := ContentIndent(s).value;
      assert s[indent] == t[indent];
      ClosingMoved(s, t, a, b, d, indent + 1);
      if IndexOf(s, indent + 1, "]:").Some? {
        var c := IndexOf(s, indent + 1, "]:").value;
        if c + 1 < a {
          DestinationMoved(s, t, a, b, d, c + 2);
        } else {
          SwappedAt(s, t, a, b, d, c + 2);
          DestinationSame(s, c + 2, t, c + 2 + d);
        }
      }
    }
  }

  lemma LineMoved(s: string, t: string, a: nat, b: nat, d: int, m: Mode)
    requires Swapped(s, t, a, b, d) && Range(a, b) in ScanLine(s, m).found
    ensures ScanLine(t, m).mode == ScanLine(s, m).mode
    ensures Moved(ScanLine(s, m).found, ScanLine(t, m).found, a, d)
  {
    hide Definition, ScanInline, FenceOf, ContentIndent, IsIndentedCode, ClosesFence;
    var k;
    if Definition(s, m).Some? {
      k := DefinitionMark(s, m);
    } else {
      k := InlineMark(s, 0, m, Range(a, b));
      InlineMoved(s, t, a, b, d, 0, m);
    }
    LineStartStays(s, t, a, b, d, k);
    DefinitionMoved(s, t, a, b, d, k, m);
  }

  lemma DefinitionMark(s: string, m: Mode) returns (k: nat)
    requires Definition(s, m).Some?
    ensures k < Definition(s, m).value.start && s[k] == '['
  {
    hide Destination, IndexOf;
    k := ContentIndent(s).value;
  }

  /** The line that holds the replaced text, cut out of both sources. */
  lemma SwappedLine(src: string, out: string, a: nat, b: nat, d: int, start: nat)
    requires Swapped(src, out, a, b, d) && start <= a && LineEnd(src, start) >= b
    ensures LineEnd(out, start) == LineEnd(src, start) + d
    ensures Swapped(src[start..LineEnd(src, start)], out[start..LineEnd(out, start)], a - start, b - start, d)
    ensures LineEnd(src, start) < |src| ==> Same(src, LineEnd(src, start) + 1, out, LineEnd(out, start) + 1)
  {
    SpanAbsorbed(src, out, a, b, d, start, Except('\n'));
    var end := LineEnd(src, start);
    SwappedCut(src, out, a, b, d, end);
    var s, t := src[..end], out[..end + d];
    assert src[start..end] == s[start..] && out[start..end + d] == t[start..];
    assert s[start..][b - start..] == s[b..] && t[start..][b + d - start..] == t[b + d..];
    if end < |src| {
      SwappedAt(src, out, a, b, d, end + 1);
    }
  }

  lemma MovedShift(rs: seq<Range>, rs': seq<Range>, a: nat, d: int, offset: nat)
    requires Moved(rs, rs', a, d)
    ensures Moved(Shift(rs, offset), Shift(rs', offset), a + offset, d)
  {
  }

  lemma ShiftedMember(rs: seq<Range>, r: Range, offset: nat)
    requires r in Shift(rs, offset)
    ensures r.start >= offset && r.end >= offset && Range(r.start - offset, r.end - offset) in rs
  {
    var k :| 0 <= k < |rs| && Shift(rs, offset)[k] == r;
    assert rs[k] == Range(r.start - offset, r.end - offset);
  }

  /** Replacing one found destination of a source by another plain text moves the found ranges and no more. */
  lemma {:induction false} SourceMoved(src: string, out: string, a: nat, b: nat, d: int, start: nat, m: Mode)
    requires Swapped(src, out, a, b, d) && Range(a, b) in RangesFrom(src, start, m)
    ensures Moved(RangesFrom(src, start, m), RangesFrom(out, start, m), a, d)
    decreases |src| - start
  {
    hide *;
    RangeInLine(src, start, m, Range(a, b));
    RangesUnfold(src, start, m);
    var end := LineEnd(src, start);
    var scan := ScanLine(src[start..end], m);
    var here, rest := Shift(scan.found, start), RangesFrom(src, end + 1, scan.mode);
    LineFound(src[start..end], m);
    OrderedShift(scan.found, end - start, start);
    RangesFound(src, end + 1, scan.mode);
    if Range(a, b) in here {
      OrderedMember(here, start, end, Range(a, b));
      SwappedLine(src, out, a, b, d, start);
      ShiftedMember(scan.found, Range(a, b), start);
      LineMoved(src[start..end], out[start..end + d], a - start, b - start, d, m);
      var scan' := ScanLine(out[start..end + d], m);
      MovedShift(scan.found, scan'.found, a - start, d, start);
      SwappedSize(src, out, a, b, d);
      RangesUnfold(out, start, m);
      var rest' := RangesFrom(out, end + d + 1, scan'.mode);
      if end < |src| {
        SameIs(src, end + 1, out, end + d + 1);
        RangesAligned(src, end + 1, out, end + d + 1, scan.mode);
      } else {
        RangesDone(src, end + 1, scan.mode);
        RangesDone(out, end + d + 1, scan.mode);
        SlidEmpty(d);
      }
      MovedBehind(rest, rest', end + 1, |src|, a, d);
      MovedConcat(here, Shift(scan'.found, start), rest, rest', a, d);
    } else {
      OrderedMember(rest, end + 1, |src|, Range(a, b));
      LineStays(src, out, a, b, d, start);
      SwappedSize(src, out, a, b, d);
      RangesUnfold(out, start, m);
      MovedBefore(here, start, end, a, d);
      SourceMoved(src, out, a, b, d, end + 1, scan.mode);
      MovedConcat(here, here, rest, RangesFrom(out, end + 1, scan.mode), a, d);
    }
  }

  lemma SwappedSize(src: string, out: string, a: nat, b: nat, d: int)
    requires Swapped(src, out, a, b, d)
    ensures a < b <= |src| && a < b + d <= |out| && |out| == |src| + d
  {
  }

  lemma SameIs(s: string, i: nat, t: string, j: nat)
    requires Same(s, i, t, j)
    ensures i <= |s| && j <= |t| && s[i..] == t[j..]
  {
  }

  lemma LineStays(src: string, out: string, a: nat, b: nat, d: int, start: nat)
    requires Swapped(src, out, a, b, d) && start <= a && LineEnd(src, start) < a
    ensures LineEnd(out, start) == LineEnd(src, start)
    ensures src[start..LineEnd(src, start)] == out[start..LineEnd(src, start)]
  {
    SpanStops(src, out, a, b, d, start, Except('\n'));
  }
}
