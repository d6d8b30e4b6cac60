/**
 Applying review suggestions to a Markdown snapshot. The code edits the lines from bottom to top;
 the result is the simultaneous replacement of all suggested line ranges.
 */
module ReviewEdits {

  /** One suggestion: replace the lines `start..end` (one-based, inclusive) of the reviewed side. */
  datatype Edit = Edit(newSide: bool, start: int, end: int, original: string, replacement: string)

  datatype EditResult = Ok(value: string) | Rejected

  /** strings.Split(s, "\n") */
  function Lines(s: string): (lines: seq<string>)
    ensures |lines| >= 1
  {
    if s == "" then [""]
    else if s[0] == '\n' then [""] + Lines(s[1..])
    else
      var rest := Lines(s[1..]);
      [[s[0]] + rest[0]] + rest[1..]
  }

  /** strings.Join(lines, "\n") */
  function Join(lines: seq<string>): string {
    if lines == [] then "" else if |lines| == 1 then lines[0] else lines[0] + "\n" + Join(lines[1..])
  }

  /** Splitting and joining is the identity, so an empty selection changes nothing. */
  lemma {:induction false} JoinLines(s: string)
    ensures Join(Lines(s)) == s
  {
    if s != "" {
      JoinLines(s[1..]);
      var rest := Lines(s[1..]);
      if s[0] == '\n' {
        assert ([""] + rest)[1..] == rest;
      } else if |rest| > 1 {
        assert ([[s[0]] + rest[0]] + rest[1..])[1..] == rest[1..];
      }
    }
  }

  function ReplacementLines(replacement: string): seq<string> {
    if replacement == "" then [] else Lines(replacement)
  }

  /** The edit covers existing lines whose text is the one it was written against. */
  predicate Fits(lines: seq<string>, e: Edit) {
    1 <= e.start <= e.end <= |lines| && Join(lines[e.start - 1..e.end]) == e.original
  }

  predicate Disjoint(e: Edit, f: Edit) {
    e.end < f.start || f.end < e.start
  }

  /** All edits are on the reviewed side, fit the lines, and no two share a line. */
  ghost predicate Applicable(lines: seq<string>, edits: multiset<Edit>) {
    && (forall e :: e in edits ==> e.newSide && Fits(lines, e) && edits[e] == 1)
    && (forall e, f :: e in edits && f in edits && e != f ==> Disjoint(e, f))
  }

  ghost predicate StartsAt(edits: multiset<Edit>, i: nat) {
    exists e :: e in edits && e.start == i + 1
  }

  /** The lines from the (zero-based) line `i` on with every edit's lines replaced. */
  ghost function Replaced(lines: seq<string>, edits: multiset<Edit>, i: nat): seq<string>
    requires Applicable(lines, edits) && i <= |lines|
    decreases |lines| - i
  {
    if i == |lines| then []
    else if StartsAt(edits, i) then
      var e :| e in edits && e.start == i + 1;
      ReplacementLines(e.replacement) + Replaced(lines, edits, e.end)
    else [lines[i]] + Replaced(lines, edits, i + 1)
  }

  // ---- the order in which the edits are applied

  /** All the edits applied to the text at once. */
  ghost function Outcome(markdown: string, edits: multiset<Edit>): EditResult {
    if Applicable(Lines(markdown), edits) then Ok(Join(Replaced(Lines(markdown), edits, 0))) else Rejected
  }

  predicate Before(e: Edit, f: Edit) {
    e.start < f.start || (e.start == f.start && e.end <= f.end)
  }

  ghost predicate Sorted(s: seq<Edit>) {
    forall i, j :: 0 <= i < j < |s| ==> Before(s[i], s[j])
  }

  function Insert(e: Edit, s: seq<Edit>): (r: seq<Edit>)
    ensures multiset(r) == multiset(s) + multiset{e}
  {
    if s == [] || Before(e, s[0]) then
      assert [e] + s == [e] + s;
      [e] + s
    else
      assert s == [s[0]] + s[1..];
      [s[0]] + Insert(e, s[1..])
  }

  function Sort(s: seq<Edit>): (r: seq<Edit>)
    ensures multiset(r) == multiset(s)
  {
    if s == [] then []
    else
      assert s == [s[0]] + s[1..];
      Insert(s[0], Sort(s[1..]))
  }

  lemma {:induction false} InsertSorted(e: Edit, s: seq<Edit>)
    requires Sorted(s)
    ensures Sorted(Insert(e, s))
  {
    if s != [] && !Before(e, s[0]) {
      InsertSorted(e, s[1..]);
      var r := Insert(e, s[1..]);
      forall f | f in r
        ensures Before(s[0], f)
      {
        assert f in multiset(r);
        if f != e {
          assert f in s[1..];
        }
      }
    }
  }

  lemma {:induction false} SortSorted(s: seq<Edit>)
    ensures Sorted(Sort(s))
  {
    if s != [] {
      SortSorted(s[1..]);
      InsertSorted(s[0], Sort(s[1..]));
    }
  }

  /** Consecutive edits in order leave each other's lines alone. */
  ghost predicate Spaced(lines: seq<string>, s: seq<Edit>, n: nat)
    requires n <= |s|
  {
    && (forall i :: 0 <= i < n ==> s[i].newSide && Fits(lines, s[i]))
    && (forall i, j :: 0 <= i < j < n ==> s[i].end < s[j].start)
  }

  lemma {:induction false} CountOnce(s: seq<Edit>, i: nat)
    requires i < |s| && forall j :: 0 <= j < |s| && j != i ==> s[j] != s[i]
    ensures multiset(s)[s[i]] == 1
  {
    assert s == s[..i] + [s[i]] + s[i + 1..];
    assert s[i] !in multiset(s[..i]) && s[i] !in multiset(s[i + 1..]);
  }

  lemma CountTwice(s: seq<Edit>, i: nat, j: nat)
    requires i < j < |s| && s[i] == s[j]
    ensures multiset(s)[s[i]] >= 2
  {
    assert s == s[..i] + [s[i]] + s[i + 1..];
    assert s[j] in s[i + 1..] by { assert s[i + 1..][j - i - 1] == s[j]; }
  }

  lemma SpacedIsApplicable(lines: seq<string>, s: seq<Edit>)
    requires Spaced(lines, s, |s|)
    ensures Applicable(lines, multiset(s))
  {
    forall e | e in multiset(s)
      ensures e.newSide && Fits(lines, e) && multiset(s)[e] == 1
    {
      var i :| 0 <= i < |s| && s[i] == e;
      CountOnce(s, i);
    }
  }

  /** In an applicable selection, an edit that sorts later starts after the end of the earlier one. */
  lemma ApplicableIsSpaced(lines: seq<string>, s: seq<Edit>)
    requires Sorted(s) && Applicable(lines, multiset(s))
    ensures Spaced(lines, s, |s|)
  {
    forall i | 0 <= i < |s|
      ensures s[i].newSide && Fits(lines, s[i])
    {
      assert s[i] in multiset(s);
    }
    forall i, j | 0 <= i < j < |s|
      ensures s[i].end < s[j].start
    {
      assert s[i] in multiset(s) && s[j] in multiset(s);
      if s[i] == s[j] {
        CountTwice(s, i, j);
        assert false;
      }
      assert Before(s[i], s[j]);
    }
  }

  lemma ReplacedLine(lines: seq<string>, edits: multiset<Edit>, i: nat)
    requires Applicable(lines, edits) && i < |lines| && !StartsAt(edits, i)
    ensures Replaced(lines, edits, i) == [lines[i]] + Replaced(lines, edits, i + 1)
  {
    hide Applicable;
  }

  /** Lines in which no edit starts are copied. */
  lemma {:induction false} ReplacedCopies(lines: seq<string>, edits: multiset<Edit>, i: nat, j: nat)
    requires Applicable(lines, edits) && i <= j <= |lines|
    requires forall k :: i <= k < j ==> !StartsAt(edits, k)
    ensures Replaced(lines, edits, i) == lines[i..j] + Replaced(lines, edits, j)
    decreases j - i
  {
    hide Applicable, StartsAt, Replaced;
    if i < j {
      ReplacedLine(lines, edits, i);
      ReplacedCopies(lines, edits, i + 1, j);
      assert lines[i..j] == [lines[i]] + lines[i + 1..j];
    }
  }

  lemma ReplacedEdit(lines: seq<string>, edits: multiset<Edit>, e: Edit)
    requires Applicable(lines, edits) && e in edits
    ensures Replaced(lines, edits, e.start - 1) == ReplacementLines(e.replacement) + Replaced(lines, edits, e.end)
  {
    assert StartsAt(edits, e.start - 1);
    assert forall f :: f in edits && f.start == e.start ==> f == e;
  }

  /** Where the bottom-up loop stands before it applies edit `n - 1`. */
  function Boundary(lines: seq<string>, s: seq<Edit>, n: nat): int
    requires n <= |s|
  {
    if n == |s| then |lines| else s[n].start - 1
  }

  lemma BetweenEdits(lines: seq<string>, s: seq<Edit>, n: nat, k: nat)
    requires Spaced(lines, s, |s|) && 0 < n <= |s| && s[n - 1].end <= k < Boundary(lines, s, n)
    ensures !StartsAt(multiset(s), k)
  {
    forall e | e in multiset(s)
      ensures e.start != k + 1
    {
      var i :| 0 <= i < |s| && s[i] == e;
    }
  }

  lemma BeforeFirst(lines: seq<string>, s: seq<Edit>, k: nat)
    requires Spaced(lines, s, |s|) && k < Boundary(lines, s, 0)
    ensures !StartsAt(multiset(s), k)
  {
    forall e | e in multiset(s)
      ensures e.start != k + 1
    {
      var i :| 0 <= i < |s| && s[i] == e;
    }
  }

  /** The check of the sorted suggestions against the end of the previous one. */
  method Check(source: seq<string>, ordered: seq<Edit>) returns (ok: bool)
    requires Sorted(ordered)
    ensures ok <==> Spaced(source, ordered, |ordered|)
  {
    var previousEnd, i := 0, 0;
    while i < |ordered|
      invariant 0 <= i <= |ordered| && Spaced(source, ordered, i)
      invariant previousEnd == if i == 0 then 0 else ordered[i - 1].end
    {
      var e := ordered[i];
      if !e.newSide || e.start <= previousEnd || !Fits(source, e) {
        return false;
      }
      previousEnd := e.end;
      i := i + 1;
    }
    return true;
  }

  method BottomUp(source: seq<string>, ordered: seq<Edit>) returns (lines: seq<string>)
    requires Spaced(source, ordered, |ordered|) && Applicable(source, multiset(ordered))
    ensures lines == Replaced(source, multiset(ordered), 0)
  {
    hide Replaced, Applicable;
    ghost var edits := multiset(ordered);
    lines := source;
    ghost var bottom := |source|;
    var n := |ordered|;
    ReplacedDone(source, edits);
    while n > 0
      invariant 0 <= n <= |ordered| && 0 <= bottom == Boundary(source, ordered, n) <= |source|
      invariant lines == source[..bottom] + Replaced(source, edits, bottom)
    {
      n := n - 1;
      var e := ordered[n];
      assert Fits(source, e) && e.end <= bottom;
      OneEdit(source, ordered, n, bottom, lines);
      lines := lines[..e.start - 1] + ReplacementLines(e.replacement) + lines[e.end..];
      bottom := e.start - 1;
    }
    forall k: nat | 0 <= k < bottom
      ensures !StartsAt(edits, k)
    {
      BeforeFirst(source, ordered, k);
    }
    ReplacedCopies(source, edits, 0, bottom);
    assert source[0..bottom] == source[..bottom];
  }

  /**
   Applies the suggestions bottom to top after checking them in order. Accepts exactly the
   applicable selections, and its result does not depend on the order they are given in.
   */
  method Apply(markdown: string, suggestions: seq<Edit>) returns (r: EditResult)
    ensures r == Outcome(markdown, multiset(suggestions))
  {
    hide Replaced, Lines, Join, Applicable, Spaced, Sorted;
    var source := Lines(markdown);
    var ordered := Sort(suggestions);
    SortSorted(suggestions);
    if Applicable(source, multiset(ordered)) {
      ApplicableIsSpaced(source, ordered);
    }
    var ok := Check(source, ordered);
    if !ok {
      return Rejected;
    }
    SpacedIsApplicable(source, ordered);
    var lines := BottomUp(source, ordered);
    r := Ok(Join(lines));
  }

  lemma ReplacedDone(lines: seq<string>, edits: multiset<Edit>)
    requires Applicable(lines, edits)
    ensures lines == lines[..|lines|] + Replaced(lines, edits, |lines|)
  {
  }

  /** One round of the bottom-up loop. */
  lemma OneEdit(source: seq<string>, s: seq<Edit>, n: nat, bottom: nat, lines: seq<string>)
    requires Spaced(source, s, |s|) && Applicable(source, multiset(s)) && n < |s|
    requires bottom == Boundary(source, s, n + 1) && s[n].end <= bottom <= |source|
    requires lines == source[..bottom] + Replaced(source, multiset(s), bottom)
    ensures s[n].end <= |lines| && 1 <= s[n].start <= s[n].end
    ensures lines[..s[n].start - 1] + ReplacementLines(s[n].replacement) + lines[s[n].end..]
         == source[..s[n].start - 1] + Replaced(source, multiset(s), s[n].start - 1)
  {
    hide Replaced, Applicable;
    var e, edits := s[n], multiset(s);
    forall k: nat | e.end <= k < bottom
      ensures !StartsAt(edits, k)
    {
      BetweenEdits(source, s, n + 1, k);
    }
    ReplacedCopies(source, edits, e.end, bottom);
    assert lines[e.end..] == source[e.end..bottom] + Replaced(source, edits, bottom);
    assert lines[..e.start - 1] == source[..e.start - 1];
    ReplacedEdit(source, edits, e);
  }
}
