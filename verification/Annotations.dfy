/**
 Plugin substitutions restored in one pass, the ranges their values occupy, and text split along
 such ranges.
 */
module Annotations {
  import opened Options
  import opened TextScan

  datatype Replacement = Replacement(token: string, value: string, annotation: string)

  datatype Range = Range(start: nat, end: nat, id: string)

  type Tokens = map<string, Replacement>

  /** Later replacements win, and those without a token are ignored. */
  function ByToken(replacements: seq<Replacement>): (r: Tokens)
    ensures "" !in r
  {
    if replacements == [] then map[] else
    var last, before := replacements[|replacements| - 1], ByToken(replacements[..|replacements| - 1]);
    if last.token == "" then before else before[last.token := last]
  }

  // ---- the reference: at each position the longest token that starts there, or one character

  /** The longest token that starts at `p` and has at most `n` characters. */
  function Longest(source: string, p: nat, n: nat, tokens: Tokens): (r: Option<string>)
    requires p + n <= |source|
    ensures r.Some? ==> r.value in tokens && r.value != "" && |r.value| <= n && source[p..p + |r.value|] == r.value
  {
    if n == 0 then None
    else if source[p..p + n] in tokens then Some(source[p..p + n])
    else Longest(source, p, n - 1, tokens)
  }

  datatype Piece = Text(text: string) | Inserted(replacement: Replacement)

  function Expand(source: string, p: nat, tokens: Tokens): seq<Piece>
    requires p <= |source|
    decreases |source| - p
  {
    if p == |source| then [] else
    match Longest(source, p, |source| - p, tokens)
    case None => [Text([source[p]])] + Expand(source, p + 1, tokens)
    case Some(t) => [Inserted(tokens[t])] + Expand(source, p + |t|, tokens)
  }

  function Written(piece: Piece): string {
    match piece
    case Text(text) => text
    case Inserted(replacement) => replacement.value
  }

  function Output(pieces: seq<Piece>): string {
    if pieces == [] then "" else Written(pieces[0]) + Output(pieces[1..])
  }

  /** The ranges of annotated, non-empty values in the output, counted from `at`. */
  function Ranges(pieces: seq<Piece>, at: nat): seq<Range> {
    if pieces == [] then [] else
    var end := at + |Written(pieces[0])|;
    (if pieces[0].Inserted? && pieces[0].replacement.annotation != "" && at < end
     then [Range(at, end, pieces[0].replacement.annotation)] else []) + Ranges(pieces[1..], end)
  }

  lemma {:induction false} OutputConcat(a: seq<Piece>, b: seq<Piece>, at: nat)
    ensures Output(a + b) == Output(a) + Output(b)
    ensures Ranges(a + b, at) == Ranges(a, at) + Ranges(b, at + |Output(a)|)
  {
    hide Output, Ranges, Written;
    if a == [] {
      assert a + b == b;
      NoPieces(at);
    } else {
      assert (a + b)[1..] == a[1..] + b;
      Unfold(a + b, at);
      Unfold(a, at);
      OutputConcat(a[1..], b, at + |Written(a[0])|);
      assert Written(a[0]) + (Output(a[1..]) + Output(b)) == Written(a[0]) + Output(a[1..]) + Output(b);
    }
  }

  lemma NoPieces(at: nat)
    ensures Output([]) == "" && Ranges([], at) == []
  {
  }

  /** Ranges follow each other, are not empty, and cover exactly the values that were inserted. */
  ghost predicate RangesFit(ranges: seq<Range>, output: string, from: nat, tokens: Tokens) {
    && (forall k :: 0 <= k < |ranges| ==> from <= ranges[k].start < ranges[k].end <= |output| && ranges[k].id != "")
    && (forall j, k :: 0 <= j < k < |ranges| ==> ranges[j].end <= ranges[k].start)
    && (forall k :: 0 <= k < |ranges| ==> IsValue(output[ranges[k].start..ranges[k].end], ranges[k].id, tokens))
  }

  ghost predicate IsValue(text: string, id: string, tokens: Tokens) {
    exists t :: t in tokens && tokens[t].value == text && tokens[t].annotation == id
  }

  ghost predicate From(pieces: seq<Piece>, tokens: Tokens) {
    forall k :: 0 <= k < |pieces| && pieces[k].Inserted? ==> exists t :: t in tokens && tokens[t] == pieces[k].replacement
  }

  lemma {:induction false} ExpandFrom(source: string, p: nat, tokens: Tokens)
    requires p <= |source|
    ensures From(Expand(source, p, tokens), tokens)
    decreases |source| - p
  {
    hide Longest;
    if p < |source| {
      match Longest(source, p, |source| - p, tokens)
      case None => ExpandFrom(source, p + 1, tokens);
      case Some(t) =>
        ExpandFrom(source, p + |t|, tokens);
        assert t in tokens && tokens[t] == Expand(source, p, tokens)[0].replacement;
    }
  }

  lemma FitMore(r: Range, tail: seq<Range>, output: string, next: nat, tokens: Tokens)
    requires RangesFit(tail, output, next, tokens) && r.start < r.end <= next <= |output| && r.id != ""
    requires IsValue(output[r.start..r.end], r.id, tokens)
    ensures RangesFit([r] + tail, output, r.start, tokens)
  {
    hide IsValue;
  }

  lemma FitSooner(tail: seq<Range>, output: string, from: nat, next: nat, tokens: Tokens)
    requires RangesFit(tail, output, next, tokens) && from <= next
    ensures RangesFit(tail, output, from, tokens)
  {
    hide IsValue;
  }

  /** For any text `before` already written. */
  lemma {:induction false} RangesAreFit(pieces: seq<Piece>, before: string, tokens: Tokens)
    requires From(pieces, tokens)
    ensures RangesFit(Ranges(pieces, |before|), before + Output(pieces), |before|, tokens)
  {
    hide RangesFit, From, Output, Ranges, IsValue;
    if pieces == [] {
      NothingFits(before, tokens);
    } else {
      Unfold(pieces, |before|);
      var first, rest := pieces[0], pieces[1..];
      var next := before + Written(first);
      FromRest(pieces, tokens);
      RangesAreFit(rest, next, tokens);
      var output := before + Output(pieces);
      assert next + Output(rest) == output;
      var tail := Ranges(rest, |next|);
      if first.Inserted? && first.replacement.annotation != "" && |before| < |next| {
        var r := Range(|before|, |next|, first.replacement.annotation);
        assert output[r.start..r.end] == first.replacement.value;
        FitMore(r, tail, output, |next|, tokens);
      } else {
        FitSooner(tail, output, |before|, |next|, tokens);
      }
    }
  }

  lemma NothingFits(before: string, tokens: Tokens)
    ensures RangesFit(Ranges([], |before|), before + Output([]), |before|, tokens)
  {
  }

  lemma Unfold(pieces: seq<Piece>, at: nat)
    requires pieces != []
    ensures Output(pieces) == Written(pieces[0]) + Output(pieces[1..])
    ensures var first, end := pieces[0], at + |Written(pieces[0])|;
      Ranges(pieces, at) == if first.Inserted? && first.replacement.annotation != "" && at < end
                            then [Range(at, end, first.replacement.annotation)] + Ranges(pieces[1..], end) else Ranges(pieces[1..], end)
  {
  }

  lemma FromRest(pieces: seq<Piece>, tokens: Tokens)
    requires From(pieces, tokens) && pieces != []
    ensures From(pieces[1..], tokens)
    ensures pieces[0].Inserted? ==> IsValue(pieces[0].replacement.value, pieces[0].replacement.annotation, tokens)
  {
    assert forall k :: 0 <= k < |pieces[1..]| ==> pieces[1..][k] == pieces[k + 1];
    if pieces[0].Inserted? {
      var t :| t in tokens && tokens[t] == pieces[0].replacement;
    }
  }

  // ---- the source's way: search every token, in the map's order, for the nearest occurrence

  predicate Occurs(source: string, p: nat, token: string) {
    p <= |source| && StartsAt(source, p, token)
  }

  /** The earliest place where a token starts, and the longest token there. */
  ghost predicate IsNext(source: string, offset: nat, tokens: set<string>, start: nat, token: string) {
    && offset <= start && token in tokens && Occurs(source, start, token)
    && (forall u, q: nat :: u in tokens && offset <= q < start ==> !Occurs(source, q, u))
    && (forall u :: u in tokens && Occurs(source, start, u) ==> |u| <= |token|)
  }

  /** The choice does not depend on the order in which tokens are tried. */
  lemma NextIsUnique(source: string, offset: nat, tokens: set<string>, i: nat, t: string, j: nat, u: string)
    requires IsNext(source, offset, tokens, i, t) && IsNext(source, offset, tokens, j, u)
    ensures i == j && t == u
  {
    assert i == j;
    assert t == source[i..i + |t|] == u;
  }

  predicate Prefer(index: nat, token: string, best: Option<nat>, bestToken: string) {
    best.None? || index < best.value || (index == best.value && |token| > |bestToken|)
  }

  method NextReplacementToken(source: string, offset: nat, tokens: seq<string>) returns (best: Option<nat>, token: string)
    requires offset <= |source|
    ensures best.None? ==> forall u, q: nat :: u in tokens && offset <= q ==> !Occurs(source, q, u)
    ensures best.Some? ==> IsNext(source, offset, (set t | t in tokens), best.value, token)
  {
    hide Occurs;
    best, token := None, "";
    var n := 0;
    while n < |tokens|
      invariant 0 <= n <= |tokens|
      invariant best.None? ==> forall k, q: nat :: 0 <= k < n && offset <= q ==> !Occurs(source, q, tokens[k])
      invariant best.Some? ==> offset <= best.value && token in tokens && Occurs(source, best.value, token)
      invariant best.Some? ==> forall k, q: nat :: 0 <= k < n && offset <= q < best.value ==> !Occurs(source, q, tokens[k])
      invariant best.Some? ==> forall k :: 0 <= k < n && Occurs(source, best.value, tokens[k]) ==> |tokens[k]| <= |token|
    {
      var index := IndexOf(source, offset, tokens[n]);
      FirstOccurrence(source, offset, tokens[n]);
      if index.Some? && Prefer(index.value, tokens[n], best, token) {
        best, token := index, tokens[n];
      }
      n := n + 1;
    }
  }

  lemma FirstOccurrence(source: string, offset: nat, token: string)
    requires offset <= |source|
    ensures var r := IndexOf(source, offset, token);
      && (r.Some? ==> offset <= r.value && Occurs(source, r.value, token) && forall q: nat :: offset <= q < r.value ==> !Occurs(source, q, token))
      && (r.None? ==> forall q: nat :: offset <= q ==> !Occurs(source, q, token))
  {
    hide IndexOf;
    IndexOfFirst(source, offset, token);
  }

  /** A position that no token starts at is copied. */
  lemma {:induction false} NoLongest(source: string, p: nat, n: nat, tokens: Tokens)
    requires p + n <= |source| && "" !in tokens && forall u :: u in tokens ==> !Occurs(source, p, u)
    ensures Longest(source, p, n, tokens).None?
  {
    if n > 0 {
      NoLongest(source, p, n - 1, tokens);
      assert source[p..p + n] <= source[p..];
    }
  }

  lemma {:induction false} LongestIs(source: string, p: nat, n: nat, tokens: Tokens, t: string)
    requires p + n <= |source| && t in tokens && t != "" && |t| <= n && Occurs(source, p, t)
    requires forall u :: u in tokens && Occurs(source, p, u) ==> |u| <= |t|
    ensures Longest(source, p, n, tokens) == Some(t)
  {
    assert source[p..p + n] <= source[p..];
    if n == |t| {
      assert source[p..p + n] == t;
    } else {
      LongestIs(source, p, n - 1, tokens, t);
    }
  }

  /** Copied characters, one piece each. */
  function Copied(source: string, p: nat, q: nat): (r: seq<Piece>)
    requires p <= q <= |source|
    decreases q - p
  {
    if p == q then [] else [Text([source[p]])] + Copied(source, p + 1, q)
  }

  lemma {:induction false} CopiedWrites(source: string, p: nat, q: nat, at: nat)
    requires p <= q <= |source|
    ensures Output(Copied(source, p, q)) == source[p..q] && Ranges(Copied(source, p, q), at) == []
    decreases q - p
  {
    if p < q {
      CopiedWrites(source, p + 1, q, at + 1);
    }
  }

  lemma {:induction false} ExpandCopies(source: string, p: nat, q: nat, tokens: Tokens)
    requires p <= q <= |source| && "" !in tokens
    requires forall u, k: nat :: u in tokens && p <= k < q ==> !Occurs(source, k, u)
    ensures Expand(source, p, tokens) == Copied(source, p, q) + Expand(source, q, tokens)
    decreases q - p
  {
    hide Longest, Occurs;
    if p < q {
      NoLongest(source, p, |source| - p, tokens);
      ExpandChar(source, p, tokens);
      ExpandCopies(source, p + 1, q, tokens);
      assert [Text([source[p]])] + (Copied(source, p + 1, q) + Expand(source, q, tokens)) == Copied(source, p, q) + Expand(source, q, tokens);
    } else {
      assert Copied(source, p, q) == [];
    }
  }

  /** One round: text up to the next token, then its value. */
  lemma ExpandNext(source: string, p: nat, tokens: Tokens, start: nat, token: string)
    requires p <= |source| && "" !in tokens && IsNext(source, p, tokens.Keys, start, token)
    ensures p <= start && start + |token| <= |source| && |token| > 0 && token in tokens
    ensures Expand(source, p, tokens) == Copied(source, p, start) + [Inserted(tokens[token])] + Expand(source, start + |token|, tokens)
  {
    hide Longest, Expand, Copied;
    ExpandCopies(source, p, start, tokens);
    LongestIs(source, start, |source| - start, tokens, token);
    ExpandToken(source, start, tokens, token);
  }

  lemma ExpandChar(source: string, p: nat, tokens: Tokens)
    requires p < |source| && Longest(source, p, |source| - p, tokens).None?
    ensures Expand(source, p, tokens) == [Text([source[p]])] + Expand(source, p + 1, tokens)
  {
    hide Longest;
  }

  lemma ExpandToken(source: string, p: nat, tokens: Tokens, token: string)
    requires p < |source| && Longest(source, p, |source| - p, tokens) == Some(token)
    ensures Expand(source, p, tokens) == [Inserted(tokens[token])] + Expand(source, p + |token|, tokens)
  {
    hide Longest;
  }

  /** What one round writes and records. */
  lemma RoundWrites(source: string, p: nat, start: nat, replacement: Replacement, rest: seq<Piece>, at: nat)
    requires p <= start <= |source|
    ensures var pieces := Copied(source, p, start) + [Inserted(replacement)] + rest;
      var from, to := at + start - p, at + start - p + |replacement.value|;
      && Output(pieces) == source[p..start] + replacement.value + Output(rest)
      && Ranges(pieces, at) == (if replacement.annotation != "" && from < to then [Range(from, to, replacement.annotation)] else []) + Ranges(rest, to)
  {
    hide Copied, Output, Ranges;
    var copied, one := Copied(source, p, start), [Inserted(replacement)];
    CopiedWrites(source, p, start, at);
    OutputConcat(copied + one, rest, at);
    OutputConcat(copied, one, at);
    OneInserted(replacement, at + start - p);
  }

  lemma OneInserted(replacement: Replacement, at: nat)
    ensures Output([Inserted(replacement)]) == replacement.value
    ensures Ranges([Inserted(replacement)], at) ==
      if replacement.annotation != "" && replacement.value != "" then [Range(at, at + |replacement.value|, replacement.annotation)] else []
  {
    assert [Inserted(replacement)][1..] == [];
  }

  /** The text that follows the last token. */
  lemma LastText(source: string, p: nat, tokens: Tokens, at: nat)
    requires p <= |source| && "" !in tokens && forall u, q: nat :: u in tokens && p <= q ==> !Occurs(source, q, u)
    ensures Output(Expand(source, p, tokens)) == source[p..] && Ranges(Expand(source, p, tokens), at) == []
  {
    ExpandCopies(source, p, |source|, tokens);
    CopiedWrites(source, p, |source|, at);
    assert Copied(source, p, |source|) + [] == Copied(source, p, |source|);
  }

  /** Of the replacements with one token the last one counts; those without a token do not. */
  lemma {:induction false} ByTokenIs(replacements: seq<Replacement>, token: string)
    ensures token in ByToken(replacements) <==> token != "" && exists k :: 0 <= k < |replacements| && replacements[k].token == token
    ensures token in ByToken(replacements) ==> exists k ::
      0 <= k < |replacements| && replacements[k].token == token && ByToken(replacements)[token] == replacements[k]
      && forall j :: k < j < |replacements| ==> replacements[j].token != token
  {
    if replacements != [] {
      var before, last := replacements[..|replacements| - 1], replacements[|replacements| - 1];
      ByTokenIs(before, token);
      if last.token == token {
        assert replacements[|before|].token == token;
      } else if token in ByToken(before) {
        var k :| 0 <= k < |before| && before[k].token == token && ByToken(before)[token] == before[k] && forall j :: k < j < |before| ==> before[j].token != token;
        assert replacements[k].token == token;
      }
    }
  }

  /** The text goes on behind the nearest, longest token with the token's value in its place. */
  lemma TokenReplaced(source: string, p: nat, tokens: Tokens, start: nat, token: string, at: nat)
    requires p <= |source| && "" !in tokens && IsNext(source, p, tokens.Keys, start, token)
    ensures token in tokens && p <= start && start + |token| <= |source|
    ensures var value, annotation, rest := tokens[token].value, tokens[token].annotation, Expand(source, start + |token|, tokens);
      var from := at + start - p;
      && Output(Expand(source, p, tokens)) == source[p..start] + value + Output(rest)
      && Ranges(Expand(source, p, tokens), at) ==
           (if annotation != "" && value != "" then [Range(from, from + |value|, annotation)] else []) + Ranges(rest, from + |value|)
  {
    hide Copied, Output, Ranges, Expand, IsNext;
    ExpandNext(source, p, tokens, start, token);
    RoundWrites(source, p, start, tokens[token], Expand(source, start + |token|, tokens), at);
  }

  method IndexTokens(replacements: seq<Replacement>) returns (tokens: Tokens)
    ensures tokens == ByToken(replacements)
  {
    tokens := map[];
    var n := 0;
    while n < |replacements|
      invariant 0 <= n <= |replacements| && tokens == ByToken(replacements[..n])
    {
      assert replacements[..n + 1][..n] == replacements[..n];
      if replacements[n].token != "" {
        tokens := tokens[replacements[n].token := replacements[n]];
      }
      n := n + 1;
    }
    assert replacements[..n] == replacements;
  }

  /** The map may be iterated in another order in every round. */
  ghost predicate IsOrder(order: seq<string>, tokens: Tokens) {
    forall t :: t in order <==> t in tokens
  }

  /**
   Restores the substitutions. `orders` gives the order in which the map of tokens is iterated in each
   round: the result is the same for all of them.
   */
  method ResolvePluginReplacements(source: string, replacements: seq<Replacement>, orders: nat -> seq<string>) returns (output: string, ranges: seq<Range>)
    requires forall round :: IsOrder(orders(round), ByToken(replacements))
    ensures var pieces := Expand(source, 0, ByToken(replacements)); output == Output(pieces) && ranges == Ranges(pieces, 0)
    ensures RangesFit(ranges, output, 0, ByToken(replacements))
  {
    hide Expand, IsNext, Output, Ranges, RangesFit, ByToken;
    var tokens := IndexTokens(replacements);
    NoEmptyToken(replacements);
    ghost var pieces := Expand(source, 0, tokens);
    output, ranges := "", [];
    var position, round := 0, 0;
    while position < |source|
      invariant position <= |source|
      invariant output + Output(Expand(source, position, tokens)) == Output(pieces)
      invariant ranges + Ranges(Expand(source, position, tokens), |output|) == Ranges(pieces, 0)
      decreases |source| - position
    {
      var order := orders(round);
      assert IsOrder(order, tokens);
      var start, token := NextReplacementToken(source, position, order);
      round := round + 1;
      if start.None? {
        LastText(source, position, tokens, |output|);
        output := output + source[position..];
        position := |source|;
        NothingLeft(source, tokens, |output|);
      } else {
        assert (set t | t in order) == tokens.Keys;
        ExpandNext(source, position, tokens, start.value, token);
        ghost var rest := Expand(source, start.value + |token|, tokens);
        RoundWrites(source, position, start.value, tokens[token], rest, |output|);
        ghost var before := output;
        output := output + source[position..start.value];
        var rangeStart := |output|;
        output := output + tokens[token].value;
        if tokens[token].annotation != "" && rangeStart < |output| {
          ranges := ranges + [Range(rangeStart, |output|, tokens[token].annotation)];
        }
        position := start.value + |token|;
      }
    }
    NothingLeft(source, tokens, |output|);
    ExpandFrom(source, 0, tokens);
    RangesAreFit(pieces, "", tokens);
    assert "" + Output(pieces) == Output(pieces);
  }

  lemma NoEmptyToken(replacements: seq<Replacement>)
    ensures "" !in ByToken(replacements)
  {
  }

  lemma NothingLeft(source: string, tokens: Tokens, at: nat)
    ensures Output(Expand(source, |source|, tokens)) == "" && Ranges(Expand(source, |source|, tokens), at) == []
  {
  }

  // ---- splitting text along ranges

  /** A part of a text; the id is empty where it is not annotated. */
  datatype Part = Part(from: nat, to: nat, id: string)

  /** Parts that follow each other without gap from `start` to `stop`. */
  ghost predicate Tiles(parts: seq<Part>, start: nat, stop: nat) {
    if parts == [] then start == stop
    else parts[|parts| - 1].to == stop && parts[|parts| - 1].from < stop && Tiles(parts[..|parts| - 1], start, parts[|parts| - 1].from)
  }

  function Joined(source: string, parts: seq<Part>): string
    requires forall k :: 0 <= k < |parts| ==> parts[k].from <= parts[k].to <= |source|
  {
    if parts == [] then "" else Joined(source, parts[..|parts| - 1]) + source[parts[|parts| - 1].from..parts[|parts| - 1].to]
  }

  lemma {:induction false} TilesBounds(parts: seq<Part>, start: nat, stop: nat)
    requires Tiles(parts, start, stop)
    ensures start <= stop && forall k :: 0 <= k < |parts| ==> start <= parts[k].from < parts[k].to <= stop
  {
    if parts != [] {
      TilesBounds(parts[..|parts| - 1], start, parts[|parts| - 1].from);
    }
  }

  /** Tiles put together are the text they were cut from. */
  lemma {:induction false} TilesJoin(source: string, parts: seq<Part>, start: nat, stop: nat)
    requires Tiles(parts, start, stop) && stop <= |source|
    ensures forall k :: 0 <= k < |parts| ==> parts[k].from <= parts[k].to <= |source|
    ensures start <= stop && Joined(source, parts) == source[start..stop]
  {
    TilesBounds(parts, start, stop);
    if parts != [] {
      var last, before := parts[|parts| - 1], parts[..|parts| - 1];
      TilesJoin(source, before, start, last.from);
      assert source[start..last.from] + source[last.from..last.to] == source[start..stop];
    }
  }

  predicate Apart(part: Part, r: Range) {
    part.to <= r.start || r.end <= part.from
  }

  /** The part lies in a range of its id, or it has none and touches no range. */
  ghost predicate IsOwned(part: Part, ranges: seq<Range>) {
    || (exists k :: 0 <= k < |ranges| && ranges[k].id == part.id && ranges[k].start <= part.from && part.to <= ranges[k].end)
    || (part.id == "" && forall k :: 0 <= k < |ranges| ==> Apart(part, ranges[k]))
  }

  ghost predicate AllOwned(parts: seq<Part>, ranges: seq<Range>) {
    forall k :: 0 <= k < |parts| ==> IsOwned(parts[k], ranges)
  }

  function AppendPart(parts: seq<Part>, from: nat, to: nat, id: string): seq<Part> {
    if from < to then parts + [Part(from, to, id)] else parts
  }

  lemma AppendTiles(parts: seq<Part>, start: nat, from: nat, to: nat, id: string)
    requires Tiles(parts, start, from) && from <= to
    ensures Tiles(AppendPart(parts, from, to, id), start, to)
  {
    if from < to {
      assert (parts + [Part(from, to, id)])[..|parts|] == parts;
    }
  }

  ghost predicate Ordered(ranges: seq<Range>) {
    && (forall k :: 0 <= k < |ranges| ==> ranges[k].start < ranges[k].end)
    && (forall j, k :: 0 <= j < k < |ranges| ==> ranges[j].end <= ranges[k].start)
  }

  function Later(a: nat, b: nat): nat { if a < b then b else a }

  function Earlier(a: nat, b: nat): nat { if a < b then a else b }

  /** The ranges handled so far are behind the position, or beyond the text. */
  ghost predicate Behind(ranges: seq<Range>, n: nat, position: nat, stop: nat)
    requires n <= |ranges|
  {
    forall k :: 0 <= k < n ==> ranges[k].end <= position || stop <= ranges[k].start || position == stop
  }

  lemma OwnedMore(parts: seq<Part>, ranges: seq<Range>, from: nat, to: nat, id: string)
    requires AllOwned(parts, ranges) && (from < to ==> IsOwned(Part(from, to, id), ranges))
    ensures AllOwned(AppendPart(parts, from, to, id), ranges)
  {
    hide IsOwned;
  }

  /** The text in front of a range touches no range at all. */
  lemma GapIsFree(ranges: seq<Range>, n: nat, position: nat, to: nat, stop: nat)
    requires Ordered(ranges) && n <= |ranges| && Behind(ranges, n, position, stop) && position < to <= stop
    requires n < |ranges| ==> to <= ranges[n].start
    ensures IsOwned(Part(position, to, ""), ranges)
  {
    forall k | 0 <= k < |ranges|
      ensures Apart(Part(position, to, ""), ranges[k])
    {
    }
  }

  lemma RegionOwns(ranges: seq<Range>, n: nat, from: nat, to: nat)
    requires n < |ranges| && ranges[n].start <= from && to <= ranges[n].end
    ensures IsOwned(Part(from, to, ranges[n].id), ranges)
  {
    assert ranges[n].id == ranges[n].id;
  }

  /**
   Cuts the text from `start` to `stop` along any list of ranges. The parts always tile the text;
   for ranges in order a part carries the id of the range it lies in, and no part straddles one.
   */
  method SplitByRanges(start: nat, stop: nat, ranges: seq<Range>) returns (parts: seq<Part>)
    requires start <= stop
    ensures Tiles(parts, start, stop)
    ensures Ordered(ranges) ==> AllOwned(parts, ranges)
  {
    hide Tiles, IsOwned, AppendPart;
    parts := [];
    var position := start;
    EmptyTiles(start);
    var n := 0;
    while n < |ranges|
      invariant 0 <= n <= |ranges| && start <= position <= stop && Tiles(parts, start, position)
      invariant Ordered(ranges) ==> AllOwned(parts, ranges) && Behind(ranges, n, position, stop)
    {
      var region := ranges[n];
      var from, to := Later(position, region.start), Earlier(stop, region.end);
      if from < to {
        AppendTiles(parts, start, position, from, "");
        AppendTiles(AppendPart(parts, position, from, ""), start, from, to, region.id);
        if Ordered(ranges) {
          if position < from {
            GapIsFree(ranges, n, position, from, stop);
          }
          RegionOwns(ranges, n, from, to);
          OwnedMore(parts, ranges, position, from, "");
          OwnedMore(AppendPart(parts, position, from, ""), ranges, from, to, region.id);
        }
        parts := AppendPart(AppendPart(parts, position, from, ""), from, to, region.id);
        position := to;
      }
      n := n + 1;
    }
    AppendTiles(parts, start, position, stop, "");
    if Ordered(ranges) {
      if position < stop {
        GapIsFree(ranges, n, position, stop, stop);
      }
      OwnedMore(parts, ranges, position, stop, "");
    }
    parts := AppendPart(parts, position, stop, "");
  }

  lemma EmptyTiles(start: nat)
    ensures Tiles([], start, start)
  {
  }
}
