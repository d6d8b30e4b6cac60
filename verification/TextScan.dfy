/**
 Character classes and searches shared by the Markdown URL scanner.
 Every index loop of the scanner that walks over one class of characters is a `Span`.
 */
module TextScan {

  import opened Options

  /** The character classes the scanner's loops walk over. */
  datatype CharClass =
    | Blank                // spaces and tabs
    | Name                 // HTML tag and attribute names
    | BareDestination      // an unwrapped link destination
    | BareValue            // an unquoted attribute value
    | Only(it: char)
    | Except(stop: char)

  predicate IsHorizontalSpace(c: char) {
    c == ' ' || c == '\t'
  }

  predicate IsAlphanumeric(c: char) {
    'a' <= c <= 'z' || 'A' <= c <= 'Z' || '0' <= c <= '9'
  }

  predicate IsNameByte(c: char) {
    IsAlphanumeric(c) || c == '-' || c == ':'
  }

  predicate IsQuote(c: char) {
    c == '"' || c == '\''
  }

  /** Unicode White_Space, the set that strings.TrimSpace removes. */
  predicate IsWhiteSpace(c: char) {
    '\t' <= c <= '\r' || c == ' ' || c == '\U{85}' || c == '\U{A0}' || c == '\U{1680}' ||
    '\U{2000}' <= c <= '\U{200A}' || c == '\U{2028}' || c == '\U{2029}' || c == '\U{202F}' ||
    c == '\U{205F}' || c == '\U{3000}'
  }

  predicate Belongs(c: char, class_: CharClass) {
    match class_
    case Blank => IsHorizontalSpace(c)
    case Name => IsNameByte(c)
    case BareDestination => !(IsHorizontalSpace(c) || c == '\r' || c == ')')
    case BareValue => !(IsHorizontalSpace(c) || c == '\r' || c == '>')
    case Only(it) => c == it
    case Except(stop) => c != stop
  }

  /** The end of the longest run of `class_` characters that starts at `i`. */
  function Span(s: string, i: nat, class_: CharClass): (j: nat)
    requires i <= |s|
    ensures i <= j <= |s|
    decreases |s| - i
  {
    if i < |s| && Belongs(s[i], class_) then Span(s, i + 1, class_) else i
  }

  /** `Span` is the one position up to which every character is in the class and at which none is. */
  lemma {:induction false} SpanRun(s: string, i: nat, class_: CharClass)
    requires i <= |s|
    ensures forall k :: i <= k < Span(s, i, class_) ==> Belongs(s[k], class_)
    ensures Span(s, i, class_) < |s| ==> !Belongs(s[Span(s, i, class_)], class_)
    decreases |s| - i
  {
    if i < |s| && Belongs(s[i], class_) {
      SpanRun(s, i + 1, class_);
    }
  }

  lemma {:induction false} SpanIs(s: string, i: nat, class_: CharClass, j: nat)
    requires i <= j <= |s|
    requires forall k :: i <= k < j ==> Belongs(s[k], class_)
    requires j < |s| ==> !Belongs(s[j], class_)
    ensures Span(s, i, class_) == j
    decreases |s| - i
  {
    if i < j {
      SpanIs(s, i + 1, class_, j);
    }
  }

  predicate StartsAt(s: string, i: nat, target: string)
    requires i <= |s|
  {
    target <= s[i..]
  }

  /** The first occurrence of `target` at or after `i`. */
  function IndexOf(s: string, i: nat, target: string): (r: Option<nat>)
    requires i <= |s|
    ensures r.Some? ==> i <= r.value && r.value + |target| <= |s| && StartsAt(s, r.value, target)
    decreases |s| - i
  {
    if StartsAt(s, i, target) then Some(i)
    else if i < |s| then IndexOf(s, i + 1, target)
    else None
  }

  /** Nothing before the position found is an occurrence. */
  lemma {:induction false} IndexOfFirst(s: string, i: nat, target: string)
    requires i <= |s|
    ensures IndexOf(s, i, target).Some? ==> forall k :: i <= k < IndexOf(s, i, target).value ==> !StartsAt(s, k, target)
    ensures IndexOf(s, i, target).None? ==> forall k :: i <= k <= |s| ==> !StartsAt(s, k, target)
    decreases |s| - i
  {
    if !StartsAt(s, i, target) && i < |s| {
      IndexOfFirst(s, i + 1, target);
    }
  }

  /** The number of backslashes that end `s[..i]`. */
  function Backslashes(s: string, i: nat): (n: nat)
    requires i <= |s|
    ensures n <= i
  {
    if i > 0 && s[i - 1] == '\\' then 1 + Backslashes(s, i - 1) else 0
  }

  function TrimRight(s: string): (r: string)
    ensures r <= s
    ensures r != "" ==> !IsWhiteSpace(r[|r| - 1])
    ensures forall k :: |r| <= k < |s| ==> IsWhiteSpace(s[k])
  {
    if s != "" && IsWhiteSpace(s[|s| - 1]) then TrimRight(s[..|s| - 1]) else s
  }

  function TrimLeft(s: string): (r: string)
    ensures r != "" ==> !IsWhiteSpace(r[0])
    ensures |r| <= |s| && r == s[|s| - |r|..]
  {
    if s != "" && IsWhiteSpace(s[0]) then TrimLeft(s[1..]) else s
  }

  /** strings.TrimSpace */
  function TrimSpace(s: string): string {
    TrimLeft(TrimRight(s))
  }

  /** White space, `t`, and white space again, where `t` has none at its ends. */
  ghost predicate Padded(s: string, a: string, t: string, b: string) {
    && s == a + t + b && AllWhite(a) && AllWhite(b)
    && (t != "" ==> !IsWhiteSpace(t[0]) && !IsWhiteSpace(t[|t| - 1]))
  }

  predicate AllWhite(s: string) {
    forall k :: 0 <= k < |s| ==> IsWhiteSpace(s[k])
  }

  lemma {:induction false} TrimLeftDrops(s: string)
    ensures forall k :: 0 <= k < |s| - |TrimLeft(s)| ==> IsWhiteSpace(s[k])
  {
    hide IsWhiteSpace;
    if s != "" && IsWhiteSpace(s[0]) {
      TrimLeftDrops(s[1..]);
      assert forall k :: 0 < k < |s| ==> s[k] == s[1..][k - 1];
    }
  }

  lemma Pads(s: string, r: string, t: string)
    requires r <= s && |t| <= |r| && t == r[|r| - |t|..] && AllWhite(r[..|r| - |t|]) && AllWhite(s[|r|..])
    requires t != "" ==> !IsWhiteSpace(t[0]) && !IsWhiteSpace(t[|t| - 1])
    ensures Padded(s, r[..|r| - |t|], t, s[|r|..])
  {
    hide IsWhiteSpace, AllWhite;
  }

  lemma TrimSpacePads(s: string) returns (a: string, b: string)
    ensures Padded(s, a, TrimSpace(s), b)
  {
    hide IsWhiteSpace, Padded;
    var r := TrimRight(s);
    var t := TrimLeft(r);
    hide TrimRight, TrimLeft;
    TrimLeftDrops(r);
    a, b := r[..|r| - |t|], s[|r|..];
    if t != "" {
      assert t[|t| - 1] == r[|r| - 1];
    }
    Pads(s, r, t);
  }

  lemma PaddedAt(s: string, a: string, t: string, b: string)
    requires Padded(s, a, t, b)
    ensures |a| + |t| <= |s| && t == s[|a|..|a| + |t|]
    ensures forall k :: 0 <= k < |s| && (k < |a| || |a| + |t| <= k) ==> IsWhiteSpace(s[k])
    ensures t != "" ==> !IsWhiteSpace(s[|a|]) && !IsWhiteSpace(s[|a| + |t| - 1])
  {
    hide IsWhiteSpace;
    assert forall k :: |a| + |t| <= k < |s| ==> s[k] == b[k - |a| - |t|];
  }

  lemma PaddedOnce(s: string, a: string, t: string, b: string, a': string, t': string, b': string)
    requires Padded(s, a, t, b) && Padded(s, a', t', b')
    ensures t == t'
  {
    hide Padded, IsWhiteSpace;
    PaddedAt(s, a, t, b);
    PaddedAt(s, a', t', b');
  }

  /** Trimming removes the white space at both ends and nothing else. */
  lemma TrimSpaceIs(s: string, t: string)
    ensures TrimSpace(s) == t <==> exists a, b :: Padded(s, a, t, b)
  {
    hide TrimSpace, Padded;
    var a, b := TrimSpacePads(s);
    if c, d :| Padded(s, c, t, d) {
      PaddedOnce(s, a, TrimSpace(s), b, c, t, d);
    }
  }

  predicate IsBlank(s: string) {
    TrimRight(s) == ""
  }

  function LowerChar(c: char): char {
    if 'A' <= c <= 'Z' then c + ('a' - 'A') else c
  }

  function Lower(s: string): (r: string)
    ensures |r| == |s|
    ensures forall k :: 0 <= k < |s| ==> r[k] == LowerChar(s[k])
  {
    if s == "" then "" else [LowerChar(s[0])] + Lower(s[1..])
  }
}
