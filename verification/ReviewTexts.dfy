/**
 What applying review suggestions means for the text. A text falls into parts of whole lines, each
 either kept or suggested to be replaced; the outcome is the kept parts and the replacements.
 */
module ReviewTexts {
  import opened ReviewEdits

  datatype Part = Kept(text: string) | Edited(original: string, replacement: string)

  function Newlines(s: string): nat {
    if s == "" then 0 else (if s[0] == '\n' then 1 else 0) + Newlines(s[1..])
  }

  /** A text of n newlines has one line more. */
  function Height(s: string): (n: nat)
    ensures n >= 1
  {
    Newlines(s) + 1
  }

  function OldText(p: Part): string {
    match p
    case Kept(text) => text
    case Edited(original, _) => original
  }

  function Old(parts: seq<Part>): (r: seq<string>)
    ensures |r| == |parts|
  {
    if parts == [] then [] else [OldText(parts[0])] + Old(parts[1..])
  }

  /** An empty replacement removes its lines. */
  function NewText(p: Part): seq<string> {
    match p
    case Kept(text) => [text]
    case Edited(_, replacement) => if replacement == "" then [] else [replacement]
  }

  function New(parts: seq<Part>): seq<string> {
    if parts == [] then [] else NewText(parts[0]) + New(parts[1..])
  }

  /** The suggestions among the parts, with their (one-based, inclusive) line numbers from `line` on. */
  function Suggested(parts: seq<Part>, line: int): seq<Edit> {
    if parts == [] then [] else
    var next := line + Height(OldText(parts[0]));
    match parts[0]
    case Kept(_) => Suggested(parts[1..], next)
    case Edited(original, replacement) => [Edit(true, line, next - 1, original, replacement)] + Suggested(parts[1..], next)
  }

  // ---- lines

  /** No line contains a newline. */
  lemma {:induction false} LinesAreLines(s: string, k: nat)
    requires k < |Lines(s)|
    ensures '\n' !in Lines(s)[k]
  {
    if s != "" {
      var rest := Lines(s[1..]);
      if s[0] == '\n' {
        if k > 0 {
          LinesAreLines(s[1..], k - 1);
        }
      } else {
        LinesAreLines(s[1..], k);
        if k == 0 {
          assert Lines(s)[0] == [s[0]] + rest[0];
        }
      }
    }
  }

  lemma {:induction false} LinesHeight(s: string)
    ensures |Lines(s)| == Height(s)
  {
    if s != "" {
      LinesHeight(s[1..]);
    }
  }

  lemma {:induction false} OneLine(s: string)
    requires '\n' !in s
    ensures Lines(s) == [s] && Height(s) == 1
  {
    if s != "" {
      assert s[0] in s && forall c :: c in s[1..] ==> c in s;
      OneLine(s[1..]);
      assert [s[0]] + s[1..] == s;
    }
  }

  lemma {:induction false} LinesConcat(a: string, b: string)
    ensures Lines(a + "\n" + b) == Lines(a) + Lines(b)
  {
    var s := a + "\n" + b;
    if a == "" {
      assert s[1..] == b;
    } else {
      assert s[1..] == a[1..] + "\n" + b;
      LinesConcat(a[1..], b);
    }
  }

  lemma {:induction false} JoinConcat(a: seq<string>, b: seq<string>)
    requires a != [] && b != []
    ensures Join(a + b) == Join(a) + "\n" + Join(b)
  {
    if |a| == 1 {
      assert (a + b)[1..] == b;
    } else {
      assert (a + b)[1..] == a[1..] + b;
      JoinConcat(a[1..], b);
      assert Join(a + b) == a[0] + "\n" + (Join(a[1..]) + "\n" + Join(b));
    }
  }

  /** The lines of several texts under each other. */
  function Stacked(texts: seq<string>): seq<string> {
    if texts == [] then [] else Lines(texts[0]) + Stacked(texts[1..])
  }

  lemma {:induction false} StackedConcat(a: seq<string>, b: seq<string>)
    ensures Stacked(a + b) == Stacked(a) + Stacked(b)
  {
    if a == [] {
      assert a + b == b;
    } else {
      assert (a + b)[1..] == a[1..] + b;
      StackedConcat(a[1..], b);
    }
  }

  lemma {:induction false} StackedLines(texts: seq<string>)
    requires texts != []
    ensures Stacked(texts) != [] && Lines(Join(texts)) == Stacked(texts) && Join(Stacked(texts)) == Join(texts)
  {
    hide Lines, Join;
    var rest := texts[1..];
    JoinLines(texts[0]);
    JoinOne(texts);
    if rest != [] {
      StackedLines(rest);
      LinesConcat(texts[0], Join(rest));
      JoinConcat(Lines(texts[0]), Stacked(rest));
    } else {
      assert Stacked(rest) == [];
      assert Stacked(texts) == Lines(texts[0]);
    }
  }

  lemma JoinOne(texts: seq<string>)
    requires texts != []
    ensures Join(texts) == if texts[1..] == [] then texts[0] else texts[0] + "\n" + Join(texts[1..])
    ensures Join([]) == ""
  {
  }

  // ---- parts make up a selection that is applied

  lemma {:induction false} SuggestedLater(parts: seq<Part>, line: int, e: Edit)
    requires e in Suggested(parts, line)
    ensures line <= e.start <= e.end
  {
    if parts != [] {
      var next := line + Height(OldText(parts[0]));
      if e in Suggested(parts[1..], next) {
        SuggestedLater(parts[1..], next, e);
      }
    }
  }

  /** The parts are the lines from (zero-based) line `i` on. */
  ghost predicate Covers(lines: seq<string>, i: nat, parts: seq<Part>) {
    i <= |lines| && Stacked(Old(parts)) == lines[i..]
  }

  lemma CoversNext(lines: seq<string>, i: nat, parts: seq<Part>)
    requires Covers(lines, i, parts) && parts != []
    ensures var n := i + Height(OldText(parts[0]));
      && n <= |lines| && lines[i..n] == Lines(OldText(parts[0])) && Covers(lines, n, parts[1..])
  {
    hide Lines, Height;
    var text := OldText(parts[0]);
    LinesHeight(text);
    assert Old(parts)[0] == text && Old(parts)[1..] == Old(parts[1..]);
    assert lines[i..] == Lines(text) + Stacked(Old(parts[1..]));
    assert lines[i..][..Height(text)] == Lines(text);
    assert lines[i..][Height(text)..] == lines[i + Height(text)..];
  }

  lemma {:induction false} SuggestedSpaced(lines: seq<string>, i: nat, parts: seq<Part>)
    requires Covers(lines, i, parts)
    ensures var s := Suggested(parts, i + 1); Spaced(lines, s, |s|)
    decreases |parts|
  {
    hide Covers, Fits, Lines, Join;
    if parts != [] {
      var n := i + Height(OldText(parts[0]));
      CoversNext(lines, i, parts);
      SuggestedSpaced(lines, n, parts[1..]);
      var rest := Suggested(parts[1..], n + 1);
      if parts[0].Edited? {
        var e := Edit(true, i + 1, n, parts[0].original, parts[0].replacement);
        JoinLines(parts[0].original);
        FitsAt(lines, e);
        forall k | 0 <= k < |rest|
          ensures rest[k].start > n
        {
          SuggestedLater(parts[1..], n + 1, rest[k]);
        }
        SpacedMore(lines, e, rest);
      }
    }
  }

  lemma FitsAt(lines: seq<string>, e: Edit)
    requires 1 <= e.start <= e.end <= |lines| && Join(lines[e.start - 1..e.end]) == e.original
    ensures Fits(lines, e)
  {
  }

  lemma SpacedMore(lines: seq<string>, e: Edit, rest: seq<Edit>)
    requires Spaced(lines, rest, |rest|) && e.newSide && Fits(lines, e) && forall k :: 0 <= k < |rest| ==> rest[k].start > e.end
    ensures Spaced(lines, [e] + rest, |[e] + rest|)
  {
    hide Fits;
  }

  /** The edits from line `i` on are those that the parts suggest. */
  ghost predicate SameFrom(edits: multiset<Edit>, i: nat, parts: seq<Part>) {
    forall f :: f in edits && f.start > i <==> f in Suggested(parts, i + 1)
  }

  lemma {:induction false} ReplacedIs(lines: seq<string>, edits: multiset<Edit>, i: nat, parts: seq<Part>)
    requires Applicable(lines, edits) && Covers(lines, i, parts) && SameFrom(edits, i, parts)
    ensures Replaced(lines, edits, i) == Stacked(New(parts))
    decreases |parts|
  {
    hide Applicable, Covers, Replaced, Lines, SameFrom, Suggested, Height, StartsAt;
    if parts == [] {
      CoversNothing(lines, i);
      ReplacedDone(lines, edits);
    } else {
      var n := i + Height(OldText(parts[0]));
      CoversNext(lines, i, parts);
      SameNext(edits, i, parts);
      ReplacedIs(lines, edits, n, parts[1..]);
      StackedConcat(NewText(parts[0]), New(parts[1..]));
      NewLines(parts[0]);
      if parts[0].Kept? {
        ReplacedCopies(lines, edits, i, n);
      } else {
        ReplacedEdit(lines, edits, Edit(true, i + 1, n, parts[0].original, parts[0].replacement));
      }
    }
  }

  lemma NewLines(p: Part)
    ensures Stacked(NewText(p)) == if p.Kept? then Lines(p.text) else ReplacementLines(p.replacement)
  {
    hide Lines;
    match p
    case Kept(text) => assert Stacked([text]) == Lines(text) + Stacked([]);
    case Edited(_, replacement) => assert replacement != "" ==> Stacked([replacement]) == Lines(replacement) + Stacked([]);
  }

  lemma CoversNothing(lines: seq<string>, i: nat)
    requires Covers(lines, i, [])
    ensures i == |lines|
  {
    assert lines[i..] == [];
  }

  lemma SuggestedIn(parts: seq<Part>, line: int, f: Edit)
    requires parts != []
    ensures var next := line + Height(OldText(parts[0]));
      f in Suggested(parts, line) <==> f in Suggested(parts[1..], next) || (parts[0].Edited? && f == Edit(true, line, next - 1, parts[0].original, parts[0].replacement))
    ensures f in Suggested(parts[1..], line + Height(OldText(parts[0]))) ==> f.start >= line + Height(OldText(parts[0]))
  {
    hide Height;
    var next := line + Height(OldText(parts[0]));
    if f in Suggested(parts[1..], next) {
      SuggestedLater(parts[1..], next, f);
    }
  }

  lemma SameNext(edits: multiset<Edit>, i: nat, parts: seq<Part>)
    requires parts != [] && SameFrom(edits, i, parts)
    ensures SameFrom(edits, i + Height(OldText(parts[0])), parts[1..])
    ensures parts[0].Kept? ==> forall k :: i <= k < i + Height(OldText(parts[0])) ==> !StartsAt(edits, k)
    ensures parts[0].Edited? ==> Edit(true, i + 1, i + Height(OldText(parts[0])), parts[0].original, parts[0].replacement) in edits
  {
    hide Suggested, Height;
    if parts[0].Edited? {
      SuggestedIn(parts, i + 1, Edit(true, i + 1, i + Height(OldText(parts[0])), parts[0].original, parts[0].replacement));
    }
    forall f
      ensures f in Suggested(parts[1..], i + 1 + Height(OldText(parts[0]))) ==> f.start > i + Height(OldText(parts[0]))
      ensures f in edits && f.start > i + Height(OldText(parts[0])) ==> f in Suggested(parts[1..], i + 1 + Height(OldText(parts[0])))
      ensures f in Suggested(parts[1..], i + 1 + Height(OldText(parts[0]))) ==> f in edits
      ensures parts[0].Kept? && f in edits && f.start > i ==> f.start > i + Height(OldText(parts[0]))
    {
      SuggestedIn(parts, i + 1, f);
    }
  }

  // ---- the outcome, told by parts

  /** The parts make up the text, and the suggestions among them are the selection. */
  ghost predicate MakesUp(parts: seq<Part>, markdown: string, edits: multiset<Edit>) {
    parts != [] && Join(Old(parts)) == markdown && multiset(Suggested(parts, 1)) == edits
  }

  lemma PartsOutcome(parts: seq<Part>, markdown: string, edits: multiset<Edit>)
    requires MakesUp(parts, markdown, edits)
    ensures Outcome(markdown, edits) == Ok(Join(New(parts)))
  {
    hide Applicable, Covers, Replaced, Lines, Join, SameFrom, Suggested, New, Old, Stacked, Spaced;
    var lines := Lines(markdown);
    StackedLines(Old(parts));
    assert Covers(lines, 0, parts) by { CoversAll(lines, parts); }
    SuggestedSpaced(lines, 0, parts);
    SpacedIsApplicable(lines, Suggested(parts, 1));
    AllSuggested(parts, edits);
    ReplacedIs(lines, edits, 0, parts);
    JoinStacked(New(parts));
  }

  lemma CoversAll(lines: seq<string>, parts: seq<Part>)
    requires Stacked(Old(parts)) == lines
    ensures Covers(lines, 0, parts)
  {
    assert lines[0..] == lines;
  }

  lemma AllSuggested(parts: seq<Part>, edits: multiset<Edit>)
    requires multiset(Suggested(parts, 1)) == edits
    ensures SameFrom(edits, 0, parts)
  {
    forall f | f in edits
      ensures f.start > 0
    {
      SuggestedLater(parts, 1, f);
    }
  }

  lemma JoinStacked(texts: seq<string>)
    ensures Join(Stacked(texts)) == Join(texts)
  {
    if texts != [] {
      StackedLines(texts);
    }
  }

  lemma {:induction false} LinesOfJoin(lines: seq<string>)
    requires lines != [] && forall k :: 0 <= k < |lines| ==> '\n' !in lines[k]
    ensures Lines(Join(lines)) == lines
  {
    hide Lines, Join;
    JoinOne(lines);
    OneLine(lines[0]);
    if lines[1..] != [] {
      LinesOfJoin(lines[1..]);
      LinesConcat(lines[0], Join(lines[1..]));
      assert lines == [lines[0]] + lines[1..];
    } else {
      assert lines == [lines[0]];
    }
  }

  ghost predicate NoneAcross(edits: multiset<Edit>, i: nat) {
    forall e :: e in edits && e.start <= i ==> e.end <= i
  }

  ghost predicate Counted(edits: multiset<Edit>, i: nat, parts: seq<Part>) {
    forall f :: multiset(Suggested(parts, i + 1))[f] == if f.start > i then edits[f] else 0
  }

  lemma {:induction false} Decompose(lines: seq<string>, edits: multiset<Edit>, i: nat) returns (parts: seq<Part>)
    requires Applicable(lines, edits) && i <= |lines| && NoneAcross(edits, i)
    requires forall k :: 0 <= k < |lines| ==> '\n' !in lines[k]
    ensures Covers(lines, i, parts) && Counted(edits, i, parts)
    decreases |lines| - i
  {
    hide Applicable, Covers, Counted, Lines, Join, NoneAcross, Height;
    if i == |lines| {
      parts := [];
      NothingLeft(lines, edits);
    } else if StartsAt(edits, i) {
      var e :| e in edits && e.start == i + 1;
      EditHere(lines, edits, e);
      var rest := Decompose(lines, edits, e.end);
      parts := [Edited(e.original, e.replacement)] + rest;
      LinesOfJoin(lines[i..e.end]);
      CoversMore(lines, i, e.end, parts);
      CountEdit(lines, edits, e, rest);
    } else {
      NobodyHere(edits, i);
      var rest := Decompose(lines, edits, i + 1);
      parts := [Kept(lines[i])] + rest;
      OneLine(lines[i]);
      assert lines[i..i + 1] == [lines[i]];
      CoversMore(lines, i, i + 1, parts);
      CountKept(edits, i, lines[i], rest);
    }
  }

  lemma NothingLeft(lines: seq<string>, edits: multiset<Edit>)
    requires Applicable(lines, edits)
    ensures Covers(lines, |lines|, []) && Counted(edits, |lines|, [])
  {
    hide Join;
    forall f | f in edits
      ensures f.start <= |lines|
    {
      assert Fits(lines, f);
    }
  }

  lemma EditHere(lines: seq<string>, edits: multiset<Edit>, e: Edit)
    requires Applicable(lines, edits) && e in edits
    ensures 1 <= e.start <= e.end <= |lines| && Join(lines[e.start - 1..e.end]) == e.original && e.newSide && NoneAcross(edits, e.end)
  {
  }

  lemma NobodyHere(edits: multiset<Edit>, i: nat)
    requires NoneAcross(edits, i) && !StartsAt(edits, i)
    ensures NoneAcross(edits, i + 1)
  {
  }

  lemma CoversMore(lines: seq<string>, i: nat, n: nat, parts: seq<Part>)
    requires i <= n <= |lines| && parts != [] && Covers(lines, n, parts[1..]) && Lines(OldText(parts[0])) == lines[i..n]
    ensures Covers(lines, i, parts)
  {
    hide Lines, OldText;
    assert Stacked(Old(parts)) == Lines(OldText(parts[0])) + Stacked(Old(parts[1..])) by {
      hide Stacked;
      StackedOld(parts);
    }
    assert lines[i..] == lines[i..n] + lines[n..];
  }

  lemma StackedOld(parts: seq<Part>)
    requires parts != []
    ensures Stacked(Old(parts)) == Lines(OldText(parts[0])) + Stacked(Old(parts[1..]))
  {
    hide Lines;
    assert Old(parts)[1..] == Old(parts[1..]);
  }

  lemma CountKept(edits: multiset<Edit>, i: nat, text: string, rest: seq<Part>)
    requires !StartsAt(edits, i) && Height(text) == 1 && Counted(edits, i + 1, rest)
    ensures Counted(edits, i, [Kept(text)] + rest)
  {
    var parts := [Kept(text)] + rest;
    assert parts[1..] == rest;
    assert Suggested(parts, i + 1) == Suggested(rest, i + 2);
    forall f: Edit | f.start == i + 1
      ensures edits[f] == 0
    {
      assert f !in edits;
    }
  }

  lemma EditAlone(lines: seq<string>, edits: multiset<Edit>, e: Edit)
    requires Applicable(lines, edits) && e in edits
    ensures edits[e] == 1 && forall f :: f in edits && f != e && f.start >= e.start ==> f.start > e.end
  {
    hide Join;
  }

  lemma CountEdit(lines: seq<string>, edits: multiset<Edit>, e: Edit, rest: seq<Part>)
    requires Applicable(lines, edits) && e in edits && 1 <= e.start <= e.end && Lines(e.original) == lines[e.start - 1..e.end] && e.end <= |lines|
    requires Counted(edits, e.end, rest) && e.newSide
    ensures Counted(edits, e.start - 1, [Edited(e.original, e.replacement)] + rest)
  {
    hide Applicable, Lines, Height, Counted;
    var parts := [Edited(e.original, e.replacement)] + rest;
    LinesHeight(e.original);
    EditAlone(lines, edits, e);
    assert parts[1..] == rest;
    assert Suggested(parts, e.start) == [e] + Suggested(rest, e.end + 1);
    CountOneMore(edits, e, rest, parts);
  }

  lemma CountOneMore(edits: multiset<Edit>, e: Edit, rest: seq<Part>, parts: seq<Part>)
    requires 1 <= e.start <= e.end && Counted(edits, e.end, rest) && Suggested(parts, e.start) == [e] + Suggested(rest, e.end + 1)
    requires edits[e] == 1 && forall f :: f in edits && f != e && f.start >= e.start ==> f.start > e.end
    ensures Counted(edits, e.start - 1, parts)
  {
    hide Suggested;
    var more := Suggested(rest, e.end + 1);
    assert multiset([e] + more) == multiset{e} + multiset(more);
    forall f
      ensures multiset(Suggested(parts, e.start))[f] == if f.start > e.start - 1 then edits[f] else 0
    {
      assert multiset(more)[f] == if f.start > e.end then edits[f] else 0;
      assert f !in edits ==> edits[f] == 0;
    }
  }

  /**
   A selection is applied to a text exactly if it consists of the suggestions among parts that make
   up the text, and the outcome is the text with those parts replaced.
   */
  lemma OutcomeIs(markdown: string, edits: multiset<Edit>, text: string)
    ensures Outcome(markdown, edits) == Ok(text) <==> exists parts :: MakesUp(parts, markdown, edits) && text == Join(New(parts))
  {
    hide Outcome, MakesUp, New, Join;
    if Outcome(markdown, edits) == Ok(text) {
      var parts := PartsExist(markdown, edits, text);
      PartsOutcome(parts, markdown, edits);
    }
    if parts :| MakesUp(parts, markdown, edits) && text == Join(New(parts)) {
      PartsOutcome(parts, markdown, edits);
    }
  }

  lemma PartsExist(markdown: string, edits: multiset<Edit>, text: string) returns (parts: seq<Part>)
    requires Outcome(markdown, edits) == Ok(text)
    ensures MakesUp(parts, markdown, edits)
  {
    hide Applicable, Covers, Lines, Join, Replaced, Suggested, Old, Stacked, NoneAcross, Counted;
    var lines := Lines(markdown);
    forall k | 0 <= k < |lines|
      ensures '\n' !in lines[k]
    {
      LinesAreLines(markdown, k);
    }
    StartsInside(lines, edits);
    parts := Decompose(lines, edits, 0);
    CoversFromStart(lines, parts);
    CountedAll(lines, edits, parts);
    JoinStacked(Old(parts));
    JoinLines(markdown);
  }

  lemma StartsInside(lines: seq<string>, edits: multiset<Edit>)
    requires Applicable(lines, edits)
    ensures NoneAcross(edits, 0)
  {
    hide Join;
  }

  lemma CoversFromStart(lines: seq<string>, parts: seq<Part>)
    requires Covers(lines, 0, parts) && lines != []
    ensures Stacked(Old(parts)) == lines && parts != []
  {
    hide Lines;
    assert lines[0..] == lines;
  }

  lemma CountedAll(lines: seq<string>, edits: multiset<Edit>, parts: seq<Part>)
    requires Applicable(lines, edits) && Counted(edits, 0, parts)
    ensures multiset(Suggested(parts, 1)) == edits
  {
    hide Suggested, Join;
    forall f
      ensures multiset(Suggested(parts, 1))[f] == edits[f]
    {
      if f in edits {
        assert Fits(lines, f);
      }
    }
  }

  // ---- one suggestion

  lemma JoinThree(a: string, b: string, c: string)
    ensures Join([a, b, c]) == a + "\n" + b + "\n" + c && Join([a, b]) == a + "\n" + b && Join([a]) == a
  {
    hide Join;
    JoinOne([a, b, c]);
    JoinOne([b, c]);
    JoinOne([a, b]);
    JoinOne([c]);
    JoinOne([b]);
    JoinOne([a]);
    assert [a, b, c][1..] == [b, c] && [b, c][1..] == [c] && [a, b][1..] == [b];
  }

  lemma OnePart(a: Part)
    ensures Old([a]) == [OldText(a)] && New([a]) == NewText(a)
  {
    assert [a][1..] == [];
    assert Old([]) == [] && New([]) == [];
  }

  lemma TwoParts(a: Part, b: Part)
    ensures Old([a, b]) == [OldText(a), OldText(b)] && New([a, b]) == NewText(a) + NewText(b)
  {
    assert [a, b][1..] == [b];
    OnePart(b);
  }

  lemma ThreeParts(a: Part, b: Part, c: Part)
    ensures Old([a, b, c]) == [OldText(a), OldText(b), OldText(c)] && New([a, b, c]) == NewText(a) + (NewText(b) + NewText(c))
  {
    assert [a, b, c][1..] == [b, c];
    TwoParts(b, c);
  }

  /** Whole lines inside a text are replaced, or removed together with one newline. */
  lemma SuggestionInside(before: string, original: string, replacement: string, after: string)
    ensures Outcome(before + "\n" + original + "\n" + after, multiset{Edit(true, Height(before) + 1, Height(before) + Height(original), original, replacement)})
         == Ok(before + "\n" + (if replacement == "" then "" else replacement + "\n") + after)
  {
    hide Outcome, Height, Join;
    var parts := [Kept(before), Edited(original, replacement), Kept(after)];
    ThreeParts(parts[0], parts[1], parts[2]);
    JoinThree(before, original, after);
    JoinThree(before, replacement, after);
    JoinThree(before, after, after);
    SuggestedOne(parts, 1, 1);
    assert Old(parts) == [before, original, after];
    assert New(parts) == if replacement == "" then [before, after] else [before, replacement, after];
    PartsOutcome(parts, before + "\n" + original + "\n" + after, multiset{Edit(true, Height(before) + 1, Height(before) + Height(original), original, replacement)});
  }

  /** The same at the first line, */
  lemma SuggestionInFront(original: string, replacement: string, after: string)
    ensures Outcome(original + "\n" + after, multiset{Edit(true, 1, Height(original), original, replacement)}) == Ok((if replacement == "" then "" else replacement + "\n") + after)
  {
    hide Outcome, Height, Join;
    var parts := [Edited(original, replacement), Kept(after)];
    TwoParts(parts[0], parts[1]);
    JoinThree(original, after, after);
    JoinThree(replacement, after, after);
    JoinThree(after, after, after);
    SuggestedOne(parts, 1, 0);
    assert Old(parts) == [original, after];
    assert New(parts) == if replacement == "" then [after] else [replacement, after];
    PartsOutcome(parts, original + "\n" + after, multiset{Edit(true, 1, Height(original), original, replacement)});
  }

  /** at the last line, */
  lemma SuggestionAtTheEnd(before: string, original: string, replacement: string)
    ensures Outcome(before + "\n" + original, multiset{Edit(true, Height(before) + 1, Height(before) + Height(original), original, replacement)})
         == Ok(before + if replacement == "" then "" else "\n" + replacement)
  {
    hide Outcome, Height, Join;
    var parts := [Kept(before), Edited(original, replacement)];
    TwoParts(parts[0], parts[1]);
    JoinThree(before, original, original);
    JoinThree(before, replacement, original);
    SuggestedOne(parts, 1, 1);
    assert Old(parts) == [before, original];
    assert New(parts) == if replacement == "" then [before] else [before, replacement];
    PartsOutcome(parts, before + "\n" + original, multiset{Edit(true, Height(before) + 1, Height(before) + Height(original), original, replacement)});
  }

  /** and for the whole text. */
  lemma SuggestionForAll(original: string, replacement: string)
    ensures Outcome(original, multiset{Edit(true, 1, Height(original), original, replacement)}) == Ok(replacement)
  {
    hide Outcome, Height, Join;
    var parts := [Edited(original, replacement)];
    OnePart(parts[0]);
    JoinThree(original, original, original);
    JoinThree(replacement, original, original);
    JoinOne([original]);
    SuggestedOne(parts, 1, 0);
    assert Old(parts) == [original];
    assert New(parts) == if replacement == "" then [] else [replacement];
    PartsOutcome(parts, original, multiset{Edit(true, 1, Height(original), original, replacement)});
  }

  /** The one suggestion among a few parts. */
  lemma SuggestedOne(parts: seq<Part>, line: int, at: nat)
    requires at < |parts| <= 3 && at <= 1 && parts[at].Edited? && forall k :: 0 <= k < |parts| && k != at ==> parts[k].Kept?
    ensures var start := line + if at == 0 then 0 else Height(OldText(parts[0]));
      Suggested(parts, line) == [Edit(true, start, start + Height(parts[at].original) - 1, parts[at].original, parts[at].replacement)]
  {
    hide Height;
    SuggestedNone(parts[at + 1..], line + Height(OldText(parts[at])) + if at == 0 then 0 else Height(OldText(parts[0])));
    if at == 1 {
      assert parts[1..][0] == parts[1] && parts[1..][1..] == parts[2..];
    }
  }

  lemma {:induction false} SuggestedNone(parts: seq<Part>, line: int)
    requires forall k :: 0 <= k < |parts| ==> parts[k].Kept?
    ensures Suggested(parts, line) == []
  {
    hide Height;
    if parts != [] {
      SuggestedNone(parts[1..], line + Height(OldText(parts[0])));
    }
  }
}
