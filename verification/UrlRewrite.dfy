/**
 Rewriting the destinations of a source: the output is the splice of the replacements into the
 source, and rescanning it finds exactly the replaced destinations.
 */
module UrlRewrite {
  import opened Options
  import opened TextScan
  import opened UrlSyntax
  import opened UrlRanges
  import opened UrlSubstitution
  import UrlScanner

  /** What the caller's callback answers for one destination. */
  datatype Reply = Keep | Replace(text: string) | Fail(error: string)

  datatype Result = Ok(value: string) | Err(error: string)

  function NewText(url: string, reply: Reply): string {
    if reply.Replace? then reply.text else url
  }

  /** The text of every range. */
  ghost function Texts(source: string, rs: seq<Range>): (ts: seq<string>)
    requires Ordered(rs, 0, |source|)
    ensures |ts| == |rs|
    ensures forall k :: 0 <= k < |rs| ==> ts[k] == source[rs[k].start..rs[k].end]
  {
    seq(|rs|, k requires 0 <= k < |rs| => source[rs[k].start..rs[k].end])
  }

  /** `source` from `from` on, with the text of `rs[k]` replaced by `ts[k]` for every `k`. */
  ghost function Splice(source: string, rs: seq<Range>, ts: seq<string>, from: nat): string
    requires |rs| == |ts| && from <= |source| && Ordered(rs, from, |source|)
    decreases |rs|
  {
    if rs == [] then source[from..]
    else source[from..rs[0].start] + ts[0] + Splice(source, rs[1..], ts[1..], rs[0].end)
  }

  lemma RangesOrdered(source: string)
    ensures Ordered(RangesOf(source), 0, |source|)
  {
    RangesFound(source, 0, START);
  }

  ghost function Destinations(source: string): seq<string> {
    RangesOrdered(source);
    Texts(source, RangesOf(source))
  }

  /** All destinations of `source` replaced at once. */
  ghost function WithDestinations(source: string, ts: seq<string>): string
    requires |ts| == |RangesOf(source)|
  {
    RangesOrdered(source);
    Splice(source, RangesOf(source), ts, 0)
  }

  lemma SpliceNone(source: string, rs: seq<Range>, ts: seq<string>, from: nat)
    requires rs == [] && ts == [] && from <= |source| && Ordered(rs, from, |source|)
    ensures Splice(source, rs, ts, from) == source[from..]
  {
  }

  /** Text in front of the first range is copied. */
  lemma SpliceEarlier(source: string, rs: seq<Range>, ts: seq<string>, from: nat, mid: nat)
    requires |rs| == |ts| && from <= mid <= |source| && Ordered(rs, mid, |source|)
    ensures Ordered(rs, from, |source|)
    ensures Splice(source, rs, ts, from) == source[from..mid] + Splice(source, rs, ts, mid)
  {
    hide Ordered, Splice;
    OrderedWeaken(rs, mid, from, |source|);
    if rs == [] {
      SpliceNone(source, rs, ts, from);
      SpliceNone(source, rs, ts, mid);
      assert source[from..] == source[from..mid] + source[mid..];
    } else {
      SpliceTail(source, rs, ts, from);
      SpliceTail(source, rs, ts, mid);
      assert source[from..rs[0].start] == source[from..mid] + source[mid..rs[0].start];
      var rest := Splice(source, rs[1..], ts[1..], rs[0].end);
      Written(source[from..mid], source[mid..rs[0].start], ts[0], rest);
    }
  }

  /** Putting every destination's own text back changes nothing. */
  lemma {:induction false} SpliceSame(source: string, rs: seq<Range>, ts: seq<string>, from: nat)
    requires |rs| == |ts| && from <= |source| && Ordered(rs, from, |source|)
    requires forall k :: 0 <= k < |rs| ==> ts[k] == source[rs[k].start..rs[k].end]
    ensures Splice(source, rs, ts, from) == source[from..]
    decreases |rs|
  {
    if rs != [] {
      SpliceSame(source, rs[1..], ts[1..], rs[0].end);
      assert source[from..] == source[from..rs[0].start] + source[rs[0].start..rs[0].end] + source[rs[0].end..];
    }
  }

  lemma {:induction false} SpliceOne(source: string, rs: seq<Range>, ts: seq<string>, from: nat, k: nat)
    requires |rs| == |ts| && from <= |source| && Ordered(rs, from, |source|) && k < |rs|
    requires forall j :: 0 <= j < |rs| && j != k ==> ts[j] == source[rs[j].start..rs[j].end]
    ensures Splice(source, rs, ts, from) == source[from..rs[k].start] + ts[k] + source[rs[k].end..]
    decreases |rs|
  {
    hide Splice;
    SpliceTail(source, rs, ts, from);
    if k == 0 {
      SpliceSame(source, rs[1..], ts[1..], rs[0].end);
    } else {
      SpliceOne(source, rs[1..], ts[1..], rs[0].end, k - 1);
      assert source[from..rs[k].start] == source[from..rs[0].start] + source[rs[0].start..rs[0].end] + source[rs[0].end..rs[k].start];
    }
  }

  /** Changing one destination changes its text and no other character. */
  lemma OneChanged(source: string, k: nat, text: string)
    requires k < |RangesOf(source)|
    ensures Ordered(RangesOf(source), 0, |source|)
    ensures var r := RangesOf(source)[k];
      WithDestinations(source, Destinations(source)[k := text]) == source[..r.start] + text + source[r.end..]
  {
    hide RangesOf, Splice;
    RangesOrdered(source);
    SpliceOne(source, RangesOf(source), Destinations(source)[k := text], 0, k);
  }

  ghost predicate Accepted(urls: seq<string>, replace: string -> Reply) {
    forall k :: 0 <= k < |urls| ==> !replace(urls[k]).Fail?
  }

  ghost predicate FirstFailure(urls: seq<string>, replace: string -> Reply, error: string) {
    exists k :: 0 <= k < |urls| && replace(urls[k]) == Fail(error) && Accepted(urls[..k], replace)
  }

  ghost function Answers(urls: seq<string>, replace: string -> Reply): (ts: seq<string>)
    ensures |ts| == |urls|
    ensures forall k :: 0 <= k < |urls| ==> ts[k] == NewText(urls[k], replace(urls[k]))
  {
    seq(|urls|, k requires 0 <= k < |urls| => NewText(urls[k], replace(urls[k])))
  }

  /**
   Changes recognized destinations and copies every other character. An error of the callback aborts
   the rewrite with the first error in source order.
   */
  method Rewrite(source: string, replace: string -> Reply) returns (r: Result)
    ensures r.Ok? <==> Accepted(Destinations(source), replace)
    ensures r.Ok? ==> r.value == WithDestinations(source, Answers(Destinations(source), replace))
    ensures r.Err? ==> FirstFailure(Destinations(source), replace, r.error)
  {
    hide RangesOf, Ordered, Accepted, Splice, Pending;
    RangesOrdered(source);
    var ranges := UrlScanner.Ranges(source);
    ghost var urls := Destinations(source);
    ghost var texts := Answers(urls, replace);
    AcceptedNone(replace);
    PendingStart(source, ranges, texts);
    var output, previous: nat, i := "", 0, 0;
    assert ranges[0..] == ranges && texts[0..] == texts;
    while i < |ranges|
      invariant 0 <= i <= |ranges| && previous <= |source| && Ordered(ranges[i..], previous, |source|)
      invariant Accepted(urls[..i], replace)
      invariant previous == 0 ==> output == ""
      invariant previous == 0 <==> forall k :: 0 <= k < i ==> !replace(urls[k]).Replace?
      invariant Pending(source, ranges, texts, i, output, previous, WithDestinations(source, texts))
    {
      Advance(source, ranges, texts, i, output, previous, WithDestinations(source, texts));
      var location := ranges[i];
      var url := source[location.start..location.end];
      var reply := replace(url);
      if reply.Fail? {
        AcceptedNot(urls, replace, i);
        return Err(reply.error);
      }
      AcceptedNext(urls, replace, i);
      if reply.Replace? {
        output := output + source[previous..location.start] + reply.text;
        previous := location.end;
      }
      i := i + 1;
    }
    assert urls[..i] == urls;
    PendingDone(source, ranges, texts, output, previous, WithDestinations(source, texts));
    if previous == 0 {
      return Ok(source);
    }
    r := Ok(output + source[previous..]);
  }

  /** What is written so far and the splice of what is left make up the result. */
  ghost predicate Pending(source: string, rs: seq<Range>, ts: seq<string>, i: nat, output: string, previous: nat, whole: string)
    requires |rs| == |ts| && i <= |rs| && previous <= |source| && Ordered(rs[i..], previous, |source|)
  {
    output + Splice(source, rs[i..], ts[i..], previous) == whole
  }

  lemma PendingStart(source: string, rs: seq<Range>, ts: seq<string>)
    requires |rs| == |ts| && Ordered(rs, 0, |source|)
    ensures rs[0..] == rs && Pending(source, rs, ts, 0, "", 0, Splice(source, rs, ts, 0))
  {
    hide Splice;
    assert rs[0..] == rs && ts[0..] == ts;
  }

  lemma PendingDone(source: string, rs: seq<Range>, ts: seq<string>, output: string, previous: nat, whole: string)
    requires |rs| == |ts| && previous <= |source| && Ordered(rs[|rs|..], previous, |source|) && Pending(source, rs, ts, |rs|, output, previous, whole)
    ensures output + source[previous..] == whole
  {
    SpliceNone(source, rs[|rs|..], ts[|rs|..], previous);
  }

  /** The next range, when its destination is replaced and when it is kept. */
  lemma Advance(source: string, rs: seq<Range>, ts: seq<string>, i: nat, output: string, previous: nat, whole: string)
    requires |rs| == |ts| && i < |rs| && previous <= |source| && Ordered(rs[i..], previous, |source|)
    requires Pending(source, rs, ts, i, output, previous, whole)
    ensures previous <= rs[i].start < rs[i].end <= |source|
    ensures Ordered(rs[i + 1..], rs[i].end, |source|) && Ordered(rs[i + 1..], previous, |source|)
    ensures Pending(source, rs, ts, i + 1, output + source[previous..rs[i].start] + ts[i], rs[i].end, whole)
    ensures ts[i] == source[rs[i].start..rs[i].end] ==> Pending(source, rs, ts, i + 1, output, previous, whole)
  {
    var tail, texts := rs[i..], ts[i..];
    assert tail[0] == rs[i] && tail[1..] == rs[i + 1..] && texts[0] == ts[i] && texts[1..] == ts[i + 1..];
    SpliceTail(source, tail, texts, previous);
    var rest := Splice(source, rs[i + 1..], ts[i + 1..], rs[i].end);
    Written(output, source[previous..rs[i].start], ts[i], rest);
    if ts[i] == source[rs[i].start..rs[i].end] {
      Skip(source, tail, texts, previous);
    }
  }

  lemma AcceptedNone(replace: string -> Reply)
    ensures Accepted([], replace)
  {
  }

  lemma AcceptedNext(urls: seq<string>, replace: string -> Reply, i: nat)
    requires i < |urls| && Accepted(urls[..i], replace) && !replace(urls[i]).Fail?
    ensures Accepted(urls[..i + 1], replace)
  {
    assert urls[..i + 1] == urls[..i] + [urls[i]];
  }

  lemma AcceptedNot(urls: seq<string>, replace: string -> Reply, i: nat)
    requires i < |urls| && Accepted(urls[..i], replace) && replace(urls[i]).Fail?
    ensures !Accepted(urls, replace) && FirstFailure(urls, replace, replace(urls[i]).error)
  {
  }

  lemma SpliceTail(source: string, rs: seq<Range>, ts: seq<string>, from: nat)
    requires |rs| == |ts| > 0 && from <= |source| && Ordered(rs, from, |source|)
    ensures from <= rs[0].start < rs[0].end <= |source|
    ensures Ordered(rs[1..], rs[0].end, |source|) && Ordered(rs[1..], from, |source|)
    ensures Splice(source, rs, ts, from) == source[from..rs[0].start] + ts[0] + Splice(source, rs[1..], ts[1..], rs[0].end)
  {
  }

  lemma Written(output: string, gap: string, text: string, rest: string)
    ensures (output + gap + text) + rest == output + (gap + text + rest)
  {
  }

  /** A destination that keeps its text can be left to the copy of what follows. */
  lemma Skip(source: string, rs: seq<Range>, ts: seq<string>, from: nat)
    requires |rs| == |ts| > 0 && from <= |source| && Ordered(rs, from, |source|)
    requires ts[0] == source[rs[0].start..rs[0].end]
    ensures Ordered(rs[1..], from, |source|)
    ensures Splice(source, rs, ts, from) == Splice(source, rs[1..], ts[1..], from)
  {
    SpliceEarlier(source, rs[1..], ts[1..], from, rs[0].end);
    assert source[from..rs[0].end] == source[from..rs[0].start] + source[rs[0].start..rs[0].end];
  }

  /** Every range lies before the replaced text, behind it, or is it. */
  ghost predicate Apart(rs: seq<Range>, a: nat, b: nat) {
    forall k :: 0 <= k < |rs| ==> rs[k].end <= a || rs[k] == Range(a, b) || rs[k].start >= b
  }

  /** The text between the ranges is the same in both sources, so splicing the same texts gives the same. */
  lemma {:induction false} SpliceMoved(s: string, t: string, a: nat, b: nat, d: int, rs: seq<Range>, rs': seq<Range>, ts: seq<string>, from: nat, from': nat)
    requires Swapped(s, t, a, b, d) && |rs| == |ts| == |rs'| && Moved(rs, rs', a, d)
    requires from <= |s| && Ordered(rs, from, |s|) && Apart(rs, a, b)
    requires from' <= |t| && Ordered(rs', from', |t|) && from' == Move(from, a, d)
    requires if from <= a then Range(a, b) in rs else from >= b
    ensures Splice(t, rs', ts, from') == Splice(s, rs, ts, from)
    decreases |rs|
  {
    hide Swapped, Moved, Ordered, Apart;
    if rs == [] {
      SliceBehind(s, t, a, b, d, from, |s|);
      SwappedSize(s, t, a, b, d);
      assert rs' == [] && t[from'..] == t[from + d..|s| + d] && s[from..] == s[from..|s|];
    } else {
      SpliceTail(s, rs, ts, from);
      SpliceTail(t, rs', ts, from');
      TailMoved(s, t, a, b, d, rs, rs', from, from');
      SpliceMoved(s, t, a, b, d, rs[1..], rs'[1..], ts[1..], rs[0].end, rs'[0].end);
    }
  }

  lemma TailMoved(s: string, t: string, a: nat, b: nat, d: int, rs: seq<Range>, rs': seq<Range>, from: nat, from': nat)
    requires Swapped(s, t, a, b, d) && |rs| == |rs'| > 0 && Moved(rs, rs', a, d)
    requires from <= rs[0].start <= rs[0].end <= |s| && Ordered(rs, from, |s|) && Apart(rs, a, b)
    requires from' <= rs'[0].start <= rs'[0].end <= |t| && from' == Move(from, a, d)
    requires if from <= a then Range(a, b) in rs else from >= b
    ensures t[from'..rs'[0].start] == s[from..rs[0].start]
    ensures Moved(rs[1..], rs'[1..], a, d) && Apart(rs[1..], a, b) && rs'[0].end == Move(rs[0].end, a, d)
    ensures if rs[0].end <= a then Range(a, b) in rs[1..] else rs[0].end >= b
  {
    if from > a {
      SliceBehind(s, t, a, b, d, from, rs[0].start);
    }
  }

  lemma SliceBehind(s: string, t: string, a: nat, b: nat, d: int, i: nat, j: nat)
    requires Swapped(s, t, a, b, d) && b <= i <= j <= |s|
    ensures t[i + d..j + d] == s[i..j]
  {
    assert s[b..][i - b..j - b] == s[i..j];
    assert t[b + d..][i - b..j - b] == t[i + d..j + d];
  }

  /** Replacing one destination: the others keep their texts, and so does everything between them. */
  lemma ReplaceOne(source: string, k: nat, text: string) returns (out: string)
    requires k < |RangesOf(source)| && Plain(text) && Plain(Destinations(source)[k])
    ensures |RangesOf(out)| == |RangesOf(source)|
    ensures Destinations(out) == Destinations(source)[k := text]
    ensures forall ts: seq<string> :: |ts| == |RangesOf(source)| ==> WithDestinations(out, ts) == WithDestinations(source, ts)
  {
    hide RangesOf, Ordered, Swapped, Moved, Plain;
    RangesOrdered(source);
    var rs := RangesOf(source);
    var a, b := rs[k].start, rs[k].end;
    OrderedMember(rs, 0, |source|, rs[k]);
    var d := |text| - (b - a);
    out := source[..a] + text + source[b..];
    SwappedIs(source, out, a, b, text);
    RangesMoved(source, out, a, b, d);
    RangesOrdered(out);
    var rs' := RangesOf(out);
    MovedTexts(source, out, a, b, d, rs, rs', k, text);
    ApartIs(rs, k, |source|);
    forall ts: seq<string> | |ts| == |rs|
      ensures WithDestinations(out, ts) == WithDestinations(source, ts)
    {
      SpliceMoved(source, out, a, b, d, rs, rs', ts, 0, 0);
    }
  }

  lemma SwappedIs(source: string, out: string, a: nat, b: nat, text: string)
    requires a < b <= |source| && Plain(text) && Plain(source[a..b])
    requires out == source[..a] + text + source[b..]
    ensures Swapped(source, out, a, b, |text| - (b - a))
  {
    assert forall i :: a <= i < b ==> source[i] == source[a..b][i - a];
    assert forall i :: a <= i < a + |text| ==> out[i] == text[i - a];
  }

  lemma RangesMoved(source: string, out: string, a: nat, b: nat, d: int)
    requires Swapped(source, out, a, b, d) && Range(a, b) in RangesOf(source)
    ensures Moved(RangesOf(source), RangesOf(out), a, d)
    ensures |RangesOf(out)| == |RangesOf(source)|
  {
    SourceMoved(source, out, a, b, d, 0, START);
  }

  lemma ApartIs(rs: seq<Range>, k: nat, n: nat)
    requires k < |rs| && Ordered(rs, 0, n)
    ensures Apart(rs, rs[k].start, rs[k].end)
  {
  }

  lemma MovedTexts(s: string, t: string, a: nat, b: nat, d: int, rs: seq<Range>, rs': seq<Range>, k: nat, text: string)
    requires Swapped(s, t, a, b, d) && Moved(rs, rs', a, d) && t == s[..a] + text + s[b..] && b + d == a + |text|
    requires Ordered(rs, 0, |s|) && Ordered(rs', 0, |t|) && k < |rs| && rs[k] == Range(a, b)
    ensures Texts(t, rs') == Texts(s, rs)[k := text]
  {
    forall j | 0 <= j < |rs|
      ensures t[rs'[j].start..rs'[j].end] == Texts(s, rs)[k := text][j]
    {
      if j > k {
        SliceBehind(s, t, a, b, d, rs[j].start, rs[j].end);
      } else if j < k {
        assert rs[j].end <= a;
      }
    }
  }

  /** A destination may be replaced when its old and its new text are plain. */
  ghost predicate Replaceable(old_: string, new_: string) {
    old_ == new_ || (Plain(old_) && Plain(new_))
  }

  /**
   Rewriting preserves structure: rescanning the output finds as many destinations, in order, and
   their texts are the new ones; and what lies between them is the source's, so that splicing any
   texts into the output is splicing them into the source.
   */
  lemma {:induction false} RewritePreserves(source: string, ts: seq<string>, k: nat)
    requires |ts| == |RangesOf(source)| && k <= |ts|
    requires forall j :: 0 <= j < |ts| ==> Replaceable(Destinations(source)[j], ts[j])
    requires forall j :: 0 <= j < k ==> ts[j] == Destinations(source)[j]
    ensures var out := WithDestinations(source, ts);
      && |RangesOf(out)| == |RangesOf(source)|
      && Destinations(out) == ts
      && (forall us: seq<string> :: |us| == |ts| ==> WithDestinations(out, us) == WithDestinations(source, us))
    decreases |ts| - k
  {
    hide RangesOf, Plain;
    var urls := Destinations(source);
    if k == |ts| {
      assert ts == urls;
      RangesOrdered(source);
      SpliceSame(source, RangesOf(source), ts, 0);
    } else if ts[k] == urls[k] {
      RewritePreserves(source, ts, k + 1);
    } else {
      var mid := ReplaceOne(source, k, ts[k]);
      assert WithDestinations(mid, ts) == WithDestinations(source, ts);
      RewritePreserves(mid, ts, k + 1);
    }
  }

  /** Rewriting with one callback and then with its inverse returns the source. */
  lemma RewriteRoundTrip(source: string, there: string -> Reply, back: string -> Reply)
    requires forall k :: 0 <= k < |RangesOf(source)| ==>
      var url := Destinations(source)[k];
      var text := NewText(url, there(url));
      Replaceable(url, text) && NewText(text, back(text)) == url
    ensures var out := WithDestinations(source, Answers(Destinations(source), there));
      WithDestinations(out, Answers(Destinations(out), back)) == source
  {
    hide RangesOf, Plain;
    var urls := Destinations(source);
    var ts := Answers(urls, there);
    var out := WithDestinations(source, ts);
    RewritePreserves(source, ts, 0);
    assert Answers(ts, back) == urls;
    assert WithDestinations(out, urls) == WithDestinations(source, urls);
    RangesOrdered(source);
    SpliceSame(source, RangesOf(source), urls, 0);
  }
}
