/**
 Direct wiki-link targets in Markdown and their rewriting after pages move.
 A direct link is `[[target]]`, `[[target|label` or `[[target#anchor`.
 */
module WikiLinks {

  import opened Options

  /** What follows the target of a direct link. */
  datatype Ending = Close | Label | Anchor

  function Mark(e: Ending): string {
    match e
    case Close => "]]"
    case Label => "|"
    case Anchor => "#"
  }

  /** Characters of a canonical page path (upper case never survives normalization). */
  predicate SlugChar(c: char) {
    'a' <= c <= 'z' || '0' <= c <= '9' || c == '/' || c == '_' || c == '-'
  }

  predicate IsSlug(s: string) {
    s != "" && forall k :: 0 <= k < |s| ==> SlugChar(s[k])
  }

  type Slug = s: string | IsSlug(s) witness "a"

  /** strings.ReplaceAll for a non-empty pattern: leftmost, non-overlapping occurrences. */
  function ReplaceAll(s: string, old_: string, new_: string): string
    requires old_ != ""
    decreases |s|
  {
    if s == "" then ""
    else if old_ <= s then new_ + ReplaceAll(s[|old_|..], old_, new_)
    else [s[0]] + ReplaceAll(s[1..], old_, new_)
  }

  function Pattern(target: string, e: Ending): (p: string)
    ensures p != ""
  {
    "[[" + target + Mark(e)
  }

  /** The three passes that rewrite one moved page's direct targets. */
  function RewriteDirectTarget(source: string, old_: Slug, new_: Slug): string {
    var closed := ReplaceAll(source, Pattern(old_, Close), Pattern(new_, Close));
    var labelled := ReplaceAll(closed, Pattern(old_, Label), Pattern(new_, Label));
    ReplaceAll(labelled, Pattern(old_, Anchor), Pattern(new_, Anchor))
  }

  // ---- one-pass reference: find each direct link and rename its target

  predicate Special(c: char) {
    c == '[' || c == ']' || c == '|' || c == '#'
  }

  /** The length of the text in front of the first special character. */
  function TargetLength(s: string): (n: nat)
    ensures n <= |s|
  {
    if s != "" && !Special(s[0]) then 1 + TargetLength(s[1..]) else 0
  }

  function EndingOf(s: string): Option<Ending> {
    if |s| >= 2 && s[0] == ']' && s[1] == ']' then Some(Close)
    else if |s| >= 1 && s[0] == '|' then Some(Label)
    else if |s| >= 1 && s[0] == '#' then Some(Anchor)
    else None
  }

  predicate Opens(s: string) {
    |s| >= 2 && s[0] == '[' && s[1] == '['
  }

  datatype Link = Link(target: string, ending: Ending)

  /** The direct link that starts `s`. */
  function LinkAt(s: string): (r: Option<Link>)
    ensures r.Some? ==> 2 + |r.value.target| <= |s| && s[2..2 + |r.value.target|] == r.value.target && r.value.target != ""
  {
    if !Opens(s) then None else
    var n := TargetLength(s[2..]);
    match EndingOf(s[2 + n..])
    case None => None
    case Some(e) => if n == 0 then None else Some(Link(s[2..2 + n], e))
  }

  type Renaming = (string, Ending) -> string

  /** Every direct target of `s` renamed at once; all other text is copied. */
  function Retarget(s: string, f: Renaming): string
    decreases |s|
  {
    if s == "" then "" else
    match LinkAt(s)
    case None => [s[0]] + Retarget(s[1..], f)
    case Some(link) => "[[" + f(link.target, link.ending) + Retarget(s[2 + |link.target|..], f)
  }

  /** The simultaneous old-to-new substitution. */
  function Renamed(m: map<string, string>): Renaming {
    (t, e) => if t in m then m[t] else t
  }

  function Substitute(s: string, m: map<string, string>): string {
    Retarget(s, Renamed(m))
  }

  // ---- a pass is a renaming

  predicate TargetText(t: string) {
    t != "" && forall k :: 0 <= k < |t| ==> !Special(t[k])
  }

  lemma SlugIsTarget(t: Slug)
    ensures TargetText(t)
  {
  }

  lemma {:induction false} TargetLengthIs(t: string, rest: string)
    requires forall k :: 0 <= k < |t| ==> !Special(t[k])
    requires rest == "" || Special(rest[0])
    ensures TargetLength(t + rest) == |t|
  {
    if t == "" {
      assert t + rest == rest;
    } else {
      assert (t + rest)[1..] == t[1..] + rest;
      TargetLengthIs(t[1..], rest);
    }
  }

  lemma {:induction false} TargetLengthStops(s: string)
    ensures forall k :: 0 <= k < TargetLength(s) ==> !Special(s[k])
    ensures TargetLength(s) < |s| ==> Special(s[TargetLength(s)])
  {
    if s != "" && !Special(s[0]) {
      TargetLengthStops(s[1..]);
      assert forall k :: 1 <= k < |s| ==> s[k] == s[1..][k - 1];
    }
  }

  lemma EndingMark(s: string, e: Ending)
    ensures EndingOf(s) == Some(e) <==> Mark(e) <= s
  {
    if Mark(e) <= s {
      assert forall k :: 0 <= k < |Mark(e)| ==> s[k] == Mark(e)[k];
    }
    if EndingOf(s) == Some(e) {
      assert s[..|Mark(e)|] == Mark(e);
    }
  }

  lemma SplitAt(s: string, i: nat, n: nat)
    requires i <= n <= |s|
    ensures s[i..] == s[i..n] + s[n..]
  {
  }

  lemma PatternParts(s: string, t: string, e: Ending)
    ensures Pattern(t, e) <= s <==> |s| >= 2 + |t| && Opens(s) && s[2..2 + |t|] == t && Mark(e) <= s[2 + |t|..]
  {
    hide Mark;
    var p, n := Pattern(t, e), 2 + |t|;
    if p <= s {
      assert s[..|p|] == p;
      assert s[0] == p[0] && s[1] == p[1];
      assert s[2..n] == p[2..n] == t;
      assert s[n..][..|Mark(e)|] == s[n..|p|] == p[n..] == Mark(e);
    }
    if |s| >= n && Opens(s) && s[2..n] == t && Mark(e) <= s[n..] {
      assert s[n..][..|Mark(e)|] == Mark(e);
      assert s[..|p|] == s[..2] + s[2..n] + s[n..][..|Mark(e)|];
    }
  }

  /** A text starts with a link's pattern exactly when its first direct link is that link. */
  lemma PatternIs(s: string, t: string, e: Ending)
    requires TargetText(t)
    ensures Pattern(t, e) <= s <==> LinkAt(s) == Some(Link(t, e))
  {
    hide Pattern, Mark;
    var n := 2 + |t|;
    PatternParts(s, t, e);
    if |s| >= n {
      EndingMark(s[n..], e);
      if s[2..n] == t && Mark(e) <= s[n..] {
        SplitAt(s, 2, n);
        MarkIsSpecial(s[n..], e);
        TargetLengthIs(t, s[n..]);
      }
    }
  }

  lemma MarkIsSpecial(s: string, e: Ending)
    requires Mark(e) <= s
    ensures s != "" && Special(s[0])
  {
  }

  /** ReplaceAll copies text in which the pattern does not start. */
  lemma {:induction false} ReplaceSkips(s: string, old_: string, new_: string, i: nat, n: nat)
    requires old_ != "" && i <= n <= |s|
    requires forall k :: i <= k < n ==> !(old_ <= s[k..])
    ensures ReplaceAll(s[i..], old_, new_) == s[i..n] + ReplaceAll(s[n..], old_, new_)
    decreases n - i
  {
    if i < n {
      assert s[i..][1..] == s[i + 1..];
      ReplaceSkips(s, old_, new_, i + 1, n);
      assert s[i..n] == [s[i]] + s[i + 1..n];
    }
  }

  lemma NoLink(s: string)
    requires s == "" || s[0] != '['
    ensures LinkAt(s).None?
  {
  }

  /** Text without an opening bracket is copied. */
  lemma {:induction false} RetargetCopies(s: string, i: nat, n: nat, f: Renaming)
    requires i <= n <= |s| && forall k :: i <= k < n ==> s[k] != '['
    ensures Retarget(s[i..], f) == s[i..n] + Retarget(s[n..], f)
    decreases n - i
  {
    hide LinkAt;
    if i < n {
      NoLink(s[i..]);
      assert s[i..][1..] == s[i + 1..];
      RetargetCopies(s, i + 1, n, f);
      assert s[i..n] == [s[i]] + s[i + 1..n];
    }
  }

  function OnlyRename(old_: string, new_: string, ending: Ending): Renaming {
    (t, e) => if t == old_ && e == ending then new_ else t
  }

  /** Inside a direct link nothing but its start can open another one. */
  lemma InsideLink(s: string, k: nat)
    requires LinkAt(s).Some? && 0 < k < 2 + |LinkAt(s).value.target|
    ensures !Opens(s[k..])
  {
    var t := LinkAt(s).value.target;
    TargetLengthStops(s[2..]);
    if k >= 2 {
      assert s[k] == s[2..][k - 2];
      assert s[k..][0] == s[k];
    } else {
      assert s[2] == s[2..][0];
      assert |s[k..]| >= 2 && s[k..][1] == s[2];
    }
  }

  lemma NotOpen(p: string, s: string)
    requires Opens(p) && !Opens(s)
    ensures !(p <= s)
  {
  }

  /** The pattern does not start inside a link other than its own. */
  lemma OtherLink(s: string, p: string, n: nat)
    requires LinkAt(s).Some? && n == 2 + |LinkAt(s).value.target| && Opens(p) && !(p <= s)
    ensures forall k :: 0 <= k < n ==> !(p <= s[k..])
  {
    forall k | 0 <= k < n
      ensures !(p <= s[k..])
    {
      if k > 0 {
        InsideLink(s, k);
        NotOpen(p, s[k..]);
      } else {
        assert s[0..] == s;
      }
    }
  }

  /** A renamed link, its ending and what follows it. */
  lemma LinkRenamed(s: string, f: Renaming)
    requires LinkAt(s).Some?
    ensures var Link(t, e) := LinkAt(s).value;
      && Pattern(t, e) <= s
      && Retarget(s[2 + |t|..], f) == Mark(e) + Retarget(s[|Pattern(t, e)|..], f)
      && Retarget(s, f) == Pattern(f(t, e), e) + Retarget(s[|Pattern(t, e)|..], f)
  {
    hide LinkAt, Retarget, TargetText, Pattern, Mark;
    var Link(t, e) := LinkAt(s).value;
    LinkParts(s);
    var n, end := 2 + |t|, |Pattern(t, e)|;
    PatternLength(t, e);
    RetargetCopies(s, n, end, f);
    RetargetLink(s, f);
    PatternTail(f(t, e), e, Retarget(s[end..], f));
  }

  lemma RetargetLink(s: string, f: Renaming)
    requires LinkAt(s).Some?
    ensures var Link(t, e) := LinkAt(s).value; Retarget(s, f) == "[[" + f(t, e) + Retarget(s[2 + |t|..], f)
  {
    hide LinkAt;
  }

  lemma PatternTail(t: string, e: Ending, tail: string)
    ensures "[[" + t + (Mark(e) + tail) == Pattern(t, e) + tail
  {
    hide Mark;
  }

  lemma PatternLength(t: string, e: Ending)
    ensures |Pattern(t, e)| >= 2 + |t|
  {
  }

  /** A direct link's text: its pattern, whose ending holds no opening bracket. */
  lemma LinkParts(s: string)
    requires LinkAt(s).Some?
    ensures var Link(t, e) := LinkAt(s).value;
      && TargetText(t)
      && Pattern(t, e) <= s
      && s[2 + |t|..|Pattern(t, e)|] == Mark(e)
      && (forall k :: 2 + |t| <= k < |Pattern(t, e)| ==> s[k] != '[')
  {
    var Link(t, e) := LinkAt(s).value;
    TargetLengthStops(s[2..]);
    PatternIs(s, t, e);
    EndingMark(s[2 + |t|..], e);
    assert s[2 + |t|..|Pattern(t, e)|] == s[2 + |t|..][..|Mark(e)|] == Mark(e);
    assert forall k :: 2 + |t| <= k < |Pattern(t, e)| ==> s[k] == s[2 + |t|..|Pattern(t, e)|][k - 2 - |t|];
  }

  /** A link whose target keeps its name. */
  lemma LinkKept(s: string, f: Renaming)
    requires LinkAt(s).Some? && f(LinkAt(s).value.target, LinkAt(s).value.ending) == LinkAt(s).value.target
    ensures var n := 2 + |LinkAt(s).value.target|; Retarget(s, f) == s[..n] + Retarget(s[n..], f)
  {
    var t := LinkAt(s).value.target;
    assert s[..2 + |t|] == "[[" + t;
  }

  /** One ReplaceAll pass renames exactly the links with that target and ending. */
  lemma {:induction false} PassRenames(s: string, old_: Slug, new_: Slug, e: Ending)
    ensures ReplaceAll(s, Pattern(old_, e), Pattern(new_, e)) == Retarget(s, OnlyRename(old_, new_, e))
    decreases |s|
  {
    hide LinkAt, Mark, Pattern, Opens;
    var p, q, f := Pattern(old_, e), Pattern(new_, e), OnlyRename(old_, new_, e);
    if s != "" {
      SlugIsTarget(old_);
      PatternIs(s, old_, e);
      match LinkAt(s)
      case None =>
        PassRenames(s[1..], old_, new_, e);
      case Some(link) =>
        if p <= s {
          LinkRenamed(s, f);
          PassRenames(s[|p|..], old_, new_, e);
        } else {
          var n := 2 + |link.target|;
          PatternOpens(old_, e);
          OtherLink(s, p, n);
          ReplaceSkips(s, p, q, 0, n);
          assert s[0..] == s;
          PassRenames(s[n..], old_, new_, e);
          LinkKept(s, f);
        }
    }
  }

  lemma PatternOpens(t: string, e: Ending)
    ensures Opens(Pattern(t, e))
  {
  }

  // ---- passes compose

  ghost predicate KeepsTargets(f: Renaming) {
    forall t, e :: TargetText(t) ==> TargetText(f(t, e))
  }

  function Then(f: Renaming, g: Renaming): Renaming {
    (t, e) => g(f(t, e), e)
  }

  lemma HeadKept(s: string, f: Renaming)
    ensures Retarget(s, f) == "" <==> s == ""
    ensures s != "" ==> Retarget(s, f)[0] == s[0]
  {
  }

  lemma EndingKept(s: string, f: Renaming)
    ensures EndingOf(Retarget(s, f)) == EndingOf(s)
  {
    HeadKept(s, f);
    if s != "" && s[0] != '[' {
      NoLink(s);
      HeadKept(s[1..], f);
    }
  }

  lemma ThirdBracket(s: string)
    requires |s| >= 3 && s[2] == '['
    ensures LinkAt(s).None?
  {
    assert s[2..][0] == '[';
  }

  /** A link needs an ending after its target. */
  lemma NoEnding(s: string, n: nat)
    requires Opens(s) && n + 2 <= |s| && TargetLength(s[2..]) == n
    ensures LinkAt(s).None? <==> n == 0 || EndingOf(s[2 + n..]).None?
  {
  }

  /** After a bracket that opens no link the target and its ending are kept. */
  lemma TargetKept(w: string, f: Renaming)
    ensures var n := TargetLength(w); var v := Retarget(w[n..], f);
      Retarget(w, f) == w[..n] + v && TargetLength(w[..n] + v) == n && EndingOf(v) == EndingOf(w[n..])
  {
    hide LinkAt, EndingOf, Retarget;
    var n := TargetLength(w);
    TargetLengthStops(w);
    hide TargetLength;
    assert w[0..] == w && w[0..n] == w[..n];
    RetargetCopies(w, 0, n, f);
    HeadKept(w[n..], f);
    EndingKept(w[n..], f);
    TargetLengthIs(w[..n], Retarget(w[n..], f));
  }

  lemma BracketKept(u: string, f: Renaming)
    requires u != "" && u[0] == '[' && LinkAt(u).None?
    ensures Retarget(u, f) == "[" + Retarget(u[1..], f)
  {
    hide LinkAt;
  }

  /** The text after two opening brackets, when no link starts at either. */
  lemma StillNoTarget(s: string, f: Renaming)
    requires Opens(s) && LinkAt(s).None? && LinkAt(s[1..]).None?
    ensures LinkAt([s[0]] + Retarget(s[1..], f)).None?
  {
    hide LinkAt, EndingOf, TargetLength, Retarget;
    var w := s[2..];
    assert s[1..][1..] == w;
    BracketKept(s[1..], f);
    TargetKept(w, f);
    var n := TargetLength(w);
    TwoBrackets(w[..n], Retarget(w[n..], f));
    NoEnding(s, n);
    assert s[2 + n..] == w[n..];
  }

  /** Two opening brackets before a text of known target. */
  lemma TwoBrackets(t: string, v: string)
    requires TargetLength(t + v) == |t|
    ensures LinkAt("[" + ("[" + (t + v))).None? <==> t == "" || EndingOf(v).None?
  {
    hide LinkAt, EndingOf, TargetLength;
    var out := "[" + ("[" + (t + v));
    assert out[2..] == t + v && out[2 + |t|..] == v;
    NoEnding(out, |t|);
  }

  /** Renaming what follows creates no link at a position that had none. */
  lemma StillNoLink(s: string, f: Renaming)
    requires s != "" && LinkAt(s).None?
    ensures LinkAt([s[0]] + Retarget(s[1..], f)).None?
  {
    hide LinkAt, Retarget;
    var u := s[1..];
    var out := [s[0]] + Retarget(u, f);
    HeadKept(u, f);
    if !Opens(s) {
      NotOpening(out);
    } else if LinkAt(u).Some? {
      LinkParts(u);
      RetargetLink(u, f);
      ThirdBracket(out);
    } else {
      StillNoTarget(s, f);
    }
  }

  lemma NotOpening(s: string)
    requires !Opens(s)
    ensures LinkAt(s).None?
  {
  }

  /** Two renamings one after the other are one renaming. */
  lemma {:induction false} RetargetTwice(s: string, f: Renaming, g: Renaming)
    requires KeepsTargets(f)
    ensures Retarget(Retarget(s, f), g) == Retarget(s, Then(f, g))
    decreases |s|
  {
    hide LinkAt;
    if s != "" {
      match LinkAt(s)
      case None =>
        StillNoLink(s, f);
        var out := Retarget(s, f);
        assert out[1..] == Retarget(s[1..], f);
        RetargetTwice(s[1..], f, g);
      case Some(link) =>
        LinkParts(s);
        RenamedTwice(s, f, g);
        RetargetTwice(s[|Pattern(link.target, link.ending)|..], f, g);
    }
  }

  lemma RenamedTwice(s: string, f: Renaming, g: Renaming)
    requires KeepsTargets(f) && LinkAt(s).Some?
    ensures var Link(t, e) := LinkAt(s).value;
      var rest := s[|Pattern(t, e)|..];
      && Retarget(Retarget(s, f), g) == Pattern(g(f(t, e), e), e) + Retarget(Retarget(rest, f), g)
      && Retarget(s, Then(f, g)) == Pattern(g(f(t, e), e), e) + Retarget(rest, Then(f, g))
  {
    hide LinkAt, Pattern;
    var Link(t, e) := LinkAt(s).value;
    LinkParts(s);
    LinkRenamed(s, f);
    LinkRenamed(s, Then(f, g));
    var p, tail := Pattern(f(t, e), e), Retarget(s[|Pattern(t, e)|..], f);
    PatternIs(p + tail, f(t, e), e);
    LinkRenamed(p + tail, g);
    assert (p + tail)[|p|..] == tail;
  }

  lemma {:induction false} RetargetAlike(s: string, f: Renaming, g: Renaming)
    requires forall t, e :: f(t, e) == g(t, e)
    ensures Retarget(s, f) == Retarget(s, g)
    decreases |s|
  {
    if s != "" {
      match LinkAt(s)
      case None => RetargetAlike(s[1..], f, g);
      case Some(link) => RetargetAlike(s[2 + |link.target|..], f, g);
    }
  }

  // ---- all moved pages

  datatype PathChange = PathChange(old_: Slug, new_: Slug)

  function Pair(m: PathChange): Renaming {
    (t, e) => if t == m.old_ then m.new_ else t
  }

  /** The passes of one moved page rename its path and nothing else. */
  lemma RewriteRenames(s: string, m: PathChange)
    ensures RewriteDirectTarget(s, m.old_, m.new_) == Retarget(s, Pair(m))
  {
    hide Retarget, ReplaceAll, Pattern, TargetText;
    var f, g, h := OnlyRename(m.old_, m.new_, Close), OnlyRename(m.old_, m.new_, Label), OnlyRename(m.old_, m.new_, Anchor);
    SlugIsTarget(m.new_);
    PassRenames(s, m.old_, m.new_, Close);
    PassRenames(Retarget(s, f), m.old_, m.new_, Label);
    RetargetTwice(s, f, g);
    PassRenames(Retarget(s, Then(f, g)), m.old_, m.new_, Anchor);
    RetargetTwice(s, Then(f, g), h);
    forall t, e
      ensures Then(Then(f, g), h)(t, e) == Pair(m)(t, e)
    {
      match e
      case Close => assert Then(f, g)(t, e) == g(f(t, e), e);
      case Label => assert Then(f, g)(t, e) == g(f(t, e), e);
      case Anchor => assert Then(f, g)(t, e) == g(f(t, e), e);
    }
    RetargetAlike(s, Then(Then(f, g), h), Pair(m));
  }

  function PageByPage(s: string, moves: seq<PathChange>): string
    decreases |moves|
  {
    if moves == [] then s else PageByPage(RewriteDirectTarget(s, moves[0].old_, moves[0].new_), moves[1..])
  }

  function Substitution(moves: seq<PathChange>): (m: map<string, string>)
  {
    if moves == [] then map[] else Substitution(moves[1..])[moves[0].old_ := moves[0].new_]
  }

  /** Old paths are distinct and no new path is an old one. */
  ghost predicate Independent(moves: seq<PathChange>) {
    && (forall i, j :: 0 <= i < j < |moves| ==> moves[i].old_ != moves[j].old_)
    && (forall i, j :: 0 <= i < |moves| && 0 <= j < |moves| ==> moves[i].new_ != moves[j].old_)
  }

  lemma {:induction false} SubstitutionIs(moves: seq<PathChange>)
    ensures forall t :: t in Substitution(moves) ==> exists i :: 0 <= i < |moves| && moves[i].old_ == t
    ensures Independent(moves) ==> forall i :: 0 <= i < |moves| ==> moves[i].old_ in Substitution(moves) && Substitution(moves)[moves[i].old_] == moves[i].new_
  {
    if moves != [] {
      SubstitutionIs(moves[1..]);
      assert forall i :: 1 <= i < |moves| ==> moves[1..][i - 1] == moves[i];
      forall t | t in Substitution(moves)
        ensures exists i :: 0 <= i < |moves| && moves[i].old_ == t
      {
        if t == moves[0].old_ {
          assert moves[0].old_ == t;
        } else {
          assert t in Substitution(moves[1..]);
          var i :| 0 <= i < |moves[1..]| && moves[1..][i].old_ == t;
          assert moves[i + 1].old_ == t;
        }
      }
    }
  }

  /** Rewriting page by page, pass by pass, is one simultaneous substitution of direct targets. */
  lemma {:induction false} PageByPageIsSimultaneous(s: string, moves: seq<PathChange>)
    requires Independent(moves)
    ensures PageByPage(s, moves) == Substitute(s, Substitution(moves))
    decreases |moves|
  {
    if moves == [] {
      KeepAll(s, Renamed(map[]));
    } else {
      var first, rest := moves[0], moves[1..];
      assert forall i :: 0 <= i < |rest| ==> rest[i] == moves[i + 1];
      RewriteRenames(s, first);
      PageByPageIsSimultaneous(Retarget(s, Pair(first)), rest);
      SlugIsTarget(first.new_);
      RetargetTwice(s, Pair(first), Renamed(Substitution(rest)));
      SubstitutionIs(rest);
      RetargetAlike(s, Then(Pair(first), Renamed(Substitution(rest))), Renamed(Substitution(moves)));
    }
  }

  // ---- what a substitution leaves alone

  /** The direct links of a text, in order. */
  function Links(s: string): seq<Link>
    decreases |s|
  {
    if s == "" then [] else
    match LinkAt(s)
    case None => Links(s[1..])
    case Some(link) => [link] + Links(s[2 + |link.target|..])
  }

  /** A renaming that fixes every direct target of a text leaves the text as it is. */
  lemma {:induction false} KeepAll(s: string, f: Renaming)
    requires forall l :: l in Links(s) ==> f(l.target, l.ending) == l.target
    ensures Retarget(s, f) == s
    decreases |s|
  {
    hide LinkAt;
    if s != "" {
      match LinkAt(s)
      case None =>
        KeepAll(s[1..], f);
        assert s == [s[0]] + s[1..];
      case Some(link) =>
        var n := 2 + |link.target|;
        assert Links(s) == [link] + Links(s[n..]);
        assert link in Links(s);
        LinkKept(s, f);
        KeepAll(s[n..], f);
        assert s == s[..n] + s[n..];
    }
  }

  function RenameLinks(links: seq<Link>, f: Renaming): (r: seq<Link>)
    ensures |r| == |links|
    ensures forall k :: 0 <= k < |links| ==> r[k] == Link(f(links[k].target, links[k].ending), links[k].ending)
  {
    if links == [] then [] else [Link(f(links[0].target, links[0].ending), links[0].ending)] + RenameLinks(links[1..], f)
  }

  lemma {:induction false} LinksSkip(s: string, i: nat, n: nat)
    requires i <= n <= |s| && forall k :: i <= k < n ==> s[k] != '['
    ensures Links(s[i..]) == Links(s[n..])
    decreases n - i
  {
    hide LinkAt;
    if i < n {
      NoLink(s[i..]);
      assert s[i..][1..] == s[i + 1..];
      LinksSkip(s, i + 1, n);
    }
  }

  lemma LinksUnfold(s: string)
    requires LinkAt(s).Some?
    ensures Links(s) == [LinkAt(s).value] + Links(s[2 + |LinkAt(s).value.target|..])
  {
    hide LinkAt;
  }

  /** The ending of the first link holds no opening bracket. */
  lemma EndingPlain(s: string) returns (n: nat)
    requires LinkAt(s).Some?
    ensures var Link(t, e) := LinkAt(s).value; n == |Pattern(t, e)| && 2 + |t| <= n <= |s|
    ensures forall k :: 2 + |LinkAt(s).value.target| <= k < n ==> s[k] != '['
  {
    hide LinkAt, Pattern, Mark, TargetText;
    var Link(t, e) := LinkAt(s).value;
    LinkParts(s);
    PatternLength(t, e);
    n := |Pattern(t, e)|;
  }

  /** The first link of a text and the links after its ending. */
  lemma LinksFirst(s: string)
    requires LinkAt(s).Some?
    ensures var Link(t, e) := LinkAt(s).value; |Pattern(t, e)| <= |s| && Links(s) == [Link(t, e)] + Links(s[|Pattern(t, e)|..])
  {
    hide *;
    var n := EndingPlain(s);
    LinksUnfold(s);
    LinksSkip(s, 2 + |LinkAt(s).value.target|, n);
  }

  /** The renamed text has the same links in the same order, with the renamed targets. */
  lemma {:induction false} LinksRenamed(s: string, f: Renaming)
    requires KeepsTargets(f)
    ensures Links(Retarget(s, f)) == RenameLinks(Links(s), f)
    decreases |s|
  {
    hide LinkAt, Pattern;
    if s != "" {
      match LinkAt(s)
      case None =>
        StillNoLink(s, f);
        assert Retarget(s, f)[1..] == Retarget(s[1..], f);
        LinksRenamed(s[1..], f);
      case Some(link) =>
        var Link(t, e) := link;
        LinksFirst(s);
        LinkParts(s);
        LinkRenamed(s, f);
        var p, tail := Pattern(f(t, e), e), Retarget(s[|Pattern(t, e)|..], f);
        PatternIs(p + tail, f(t, e), e);
        LinksFirst(p + tail);
        assert (p + tail)[|p|..] == tail;
        LinksRenamed(s[|Pattern(t, e)|..], f);
    }
  }

  /** Undoing a move: when no text uses a destination path yet, renaming back restores it. */
  lemma SubstituteBack(s: string, there: map<string, string>, back: map<string, string>)
    requires forall t :: t in there ==> TargetText(there[t]) && there[t] in back && back[there[t]] == t
    requires forall l :: l in Links(s) && l.target !in there ==> l.target !in back
    ensures Substitute(Substitute(s, there), back) == s
  {
    RetargetTwice(s, Renamed(there), Renamed(back));
    KeepAll(s, Then(Renamed(there), Renamed(back)));
  }

  predicate HasOpening(s: string) {
    exists k :: 0 <= k < |s| - 1 && s[k] == '[' && s[k + 1] == '['
  }

  /** Pages that the `[[` filter skips have no direct link. */
  lemma {:induction false} NoOpeningNoLink(s: string)
    requires !HasOpening(s)
    ensures Links(s) == []
    decreases |s|
  {
    if s != "" {
      assert forall k :: 0 <= k < |s[1..]| ==> s[1..][k] == s[k + 1];
      NoOpeningNoLink(s[1..]);
    }
  }

  // ---- the texts of links

  /** `[[target]]`, `[[target|` and `[[target#` are direct links, and renaming one replaces its target only. */
  lemma LinkTexts(before: string, target: string, mark: string, e: Ending, after: string, f: Renaming)
    requires '[' !in before && TargetText(target) && ((mark == "]]" && e.Close?) || (mark == "|" && e.Label?) || (mark == "#" && e.Anchor?))
    ensures Links(before + ("[[" + target + mark) + after) == [Link(target, e)] + Links(after)
    ensures Retarget(before + ("[[" + target + mark) + after, f) == before + ("[[" + f(target, e) + mark) + Retarget(after, f)
  {
    hide LinkAt, Links, Retarget, TargetText;
    var link := "[[" + target + mark;
    var s := before + link + after;
    assert Pattern(target, e) == link && Pattern(f(target, e), e) == "[[" + f(target, e) + mark;
    var rest := s[|before|..];
    assert rest == link + after && link <= rest && rest[|link|..] == after;
    PatternIs(rest, target, e);
    assert s[0..] == s && s[0..|before|] == before;
    assert forall k :: 0 <= k < |before| ==> s[k] == before[k] && before[k] in before;
    LinksSkip(s, 0, |before|);
    RetargetCopies(s, 0, |before|, f);
    LinksFirst(rest);
    LinkRenamed(rest, f);
  }

  /** Replacing goes from the first occurrence to the text after it. */
  lemma ReplaceFirst(before: string, old_: string, after: string, new_: string)
    requires old_ != "" && forall k :: 0 <= k < |before| ==> !(old_ <= (before + old_ + after)[k..])
    ensures ReplaceAll(before + old_ + after, old_, new_) == before + new_ + ReplaceAll(after, old_, new_)
  {
    var s := before + old_ + after;
    ReplaceSkips(s, old_, new_, 0, |before|);
    assert s[0..] == s && s[0..|before|] == before;
    var rest := s[|before|..];
    assert rest == old_ + after && old_ <= rest && rest[|old_|..] == after;
  }

  lemma ReplaceNone(s: string, old_: string, new_: string)
    requires old_ != "" && forall k :: 0 <= k < |s| ==> !(old_ <= s[k..])
    ensures ReplaceAll(s, old_, new_) == s
  {
    ReplaceSkips(s, old_, new_, 0, |s|);
    assert s[0..] == s && s[0..|s|] == s && s[|s|..] == "";
  }
}
