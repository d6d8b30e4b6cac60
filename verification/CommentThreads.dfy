/** Page comments split into page-level discussion and anchored threads. */
module CommentThreads {
  import opened TextScan

  datatype Comment = Comment(id: int, parent: int, anchor: string, resolved: bool, body: string)

  datatype Thread = Thread(root: int, anchor: string, resolved: bool, comments: seq<Comment>)

  type Index = map<int, Comment>

  ghost predicate Indexed(byId: Index) {
    forall i :: i in byId ==> byId[i].id == i
  }

  ghost predicate Known(c: Comment, byId: Index) {
    c.id in byId && byId[c.id] == c
  }

  // ---- roots

  predicate HasParent(c: Comment, byId: Index) {
    c.parent > 0 && c.parent in byId
  }

  /** Follows parents until there is none, it is missing, or a comment comes round again. */
  function Walk(c: Comment, byId: Index, seen: set<int>): Comment
    decreases |byId.Keys - seen|, if c.id in byId then 0 else 1
  {
    if HasParent(c, byId) && c.id !in seen && c.id in byId then
      assert byId.Keys - (seen + {c.id}) < byId.Keys - seen by {
        assert c.id in byId.Keys - seen;
      }
      ShrinkingSet(byId.Keys - seen, byId.Keys - (seen + {c.id}));
      Walk(byId[c.parent], byId, seen + {c.id})
    else c
  }

  lemma ShrinkingSet(a: set<int>, b: set<int>)
    requires b < a
    ensures |b| < |a|
  {
    assert a == b + (a - b);
    assert a - b != {};
  }

  function Root(c: Comment, byId: Index): Comment {
    Walk(c, byId, {})
  }

  /** The comment `n` parents up. */
  function Ancestor(c: Comment, byId: Index, n: nat): Comment {
    if n == 0 then c else
    var below := Ancestor(c, byId, n - 1);
    if HasParent(below, byId) then byId[below.parent] else below
  }

  ghost function Ids(c: Comment, byId: Index, n: nat): set<int> {
    set k: nat | k < n :: Ancestor(c, byId, k).id
  }

  /** The first `n` steps up go through different comments outside `seen`. */
  ghost predicate Climbs(c: Comment, byId: Index, seen: set<int>, n: nat) {
    && (forall k: nat :: k < n ==> HasParent(Ancestor(c, byId, k), byId) && Ancestor(c, byId, k).id !in seen)
    && (forall j: nat, k: nat :: j < k < n ==> Ancestor(c, byId, j).id != Ancestor(c, byId, k).id)
  }

  lemma {:induction false} AncestorKnown(c: Comment, byId: Index, n: nat)
    requires Indexed(byId) && Known(c, byId)
    ensures Known(Ancestor(c, byId, n), byId)
  {
    if n > 0 {
      AncestorKnown(c, byId, n - 1);
    }
  }

  lemma {:induction false} AncestorOfParent(c: Comment, byId: Index, n: nat)
    requires HasParent(c, byId)
    ensures Ancestor(byId[c.parent], byId, n) == Ancestor(c, byId, n + 1)
  {
    if n > 0 {
      AncestorOfParent(c, byId, n - 1);
    }
  }

  /** The walk passes through every comment it climbs. */
  lemma {:induction false} WalkClimbs(c: Comment, byId: Index, seen: set<int>, n: nat)
    requires Indexed(byId) && Known(c, byId) && Climbs(c, byId, seen, n)
    ensures Walk(c, byId, seen) == Walk(Ancestor(c, byId, n), byId, seen + Ids(c, byId, n))
  {
    hide Walk;
    if n == 0 {
      assert seen + Ids(c, byId, 0) == seen;
    } else {
      WalkClimbs(c, byId, seen, n - 1);
      var last := Ancestor(c, byId, n - 1);
      AncestorKnown(c, byId, n - 1);
      IdsMore(c, byId, n - 1);
      assert last.id !in seen + Ids(c, byId, n - 1);
      WalkStep(last, byId, seen + Ids(c, byId, n - 1));
      assert seen + Ids(c, byId, n - 1) + {last.id} == seen + Ids(c, byId, n);
    }
  }

  lemma WalkStep(c: Comment, byId: Index, seen: set<int>)
    requires Known(c, byId) && HasParent(c, byId) && c.id !in seen
    ensures Walk(c, byId, seen) == Walk(byId[c.parent], byId, seen + {c.id})
  {
  }

  lemma IdsMore(c: Comment, byId: Index, n: nat)
    ensures Ids(c, byId, n + 1) == Ids(c, byId, n) + {Ancestor(c, byId, n).id}
  {
  }

  /** Where the walk ends: at a comment without parent, or one it has seen. */
  lemma {:induction false} WalkEnds(c: Comment, byId: Index, seen: set<int>) returns (n: nat)
    requires Indexed(byId) && Known(c, byId)
    ensures Climbs(c, byId, seen, n) && Walk(c, byId, seen) == Ancestor(c, byId, n)
    ensures !HasParent(Ancestor(c, byId, n), byId) || Ancestor(c, byId, n).id in seen + Ids(c, byId, n)
    decreases |byId.Keys - seen|
  {
    hide Walk, Climbs, Ids;
    WalkHere(c, byId, seen);
    if HasParent(c, byId) && c.id !in seen {
      assert c.id in byId.Keys - seen;
      ShrinkingSet(byId.Keys - seen, byId.Keys - (seen + {c.id}));
      WalkStep(c, byId, seen);
      var m := WalkEnds(byId[c.parent], byId, seen + {c.id});
      n := m + 1;
      ClimbsFrom(c, byId, seen, m);
    } else {
      n := 0;
    }
  }

  lemma WalkHere(c: Comment, byId: Index, seen: set<int>)
    ensures Climbs(c, byId, seen, 0) && seen + Ids(c, byId, 0) == seen
    ensures !HasParent(c, byId) || c.id in seen ==> Walk(c, byId, seen) == c
  {
  }

  lemma ClimbsFrom(c: Comment, byId: Index, seen: set<int>, m: nat)
    requires Indexed(byId) && Known(c, byId) && HasParent(c, byId) && c.id !in seen
    requires Climbs(byId[c.parent], byId, seen + {c.id}, m)
    ensures Climbs(c, byId, seen, m + 1) && Ancestor(byId[c.parent], byId, m) == Ancestor(c, byId, m + 1)
    ensures seen + Ids(c, byId, m + 1) == seen + {c.id} + Ids(byId[c.parent], byId, m)
  {
    var up := byId[c.parent];
    forall k: nat
      ensures Ancestor(c, byId, k + 1) == Ancestor(up, byId, k)
    {
      AncestorOfParent(c, byId, k);
    }
    forall k: nat | k < m + 1
      ensures HasParent(Ancestor(c, byId, k), byId) && Ancestor(c, byId, k).id !in seen
      ensures k > 0 ==> Ancestor(c, byId, k) == Ancestor(up, byId, k - 1) && Ancestor(c, byId, k).id != c.id
    {
      if k > 0 {
        assert Ancestor(c, byId, (k - 1) + 1) == Ancestor(up, byId, k - 1);
      }
    }
    forall x
      ensures x in Ids(c, byId, m + 1) <==> x == c.id || x in Ids(up, byId, m)
    {
      if x in Ids(up, byId, m) {
        var k: nat :| k < m && x == Ancestor(up, byId, k).id;
        assert x == Ancestor(c, byId, k + 1).id;
      }
      if x == c.id {
        assert Ancestor(c, byId, 0).id == x;
      }
    }
  }

  lemma {:induction false} AncestorSum(c: Comment, byId: Index, k: nat, n: nat)
    ensures Ancestor(Ancestor(c, byId, k), byId, n) == Ancestor(c, byId, k + n)
  {
    if n > 0 {
      AncestorSum(c, byId, k, n - 1);
    }
  }

  /** A root is its own root, also when the parent links form a cycle. */
  lemma RootOfRoot(c: Comment, byId: Index)
    requires Indexed(byId) && Known(c, byId)
    ensures Known(Root(c, byId), byId) && Root(Root(c, byId), byId) == Root(c, byId)
  {
    var n := WalkEnds(c, byId, {});
    var r := Ancestor(c, byId, n);
    AncestorKnown(c, byId, n);
    if HasParent(r, byId) {
      var k: nat :| k < n && r.id == Ancestor(c, byId, k).id;
      AncestorKnown(c, byId, k);
      Cycle(c, byId, k, n);
    }
  }

  lemma Cycle(c: Comment, byId: Index, k: nat, n: nat)
    requires Indexed(byId) && Known(c, byId) && Climbs(c, byId, {}, n) && k < n && Ancestor(c, byId, k) == Ancestor(c, byId, n)
    ensures var r := Ancestor(c, byId, n); Walk(r, byId, {}) == r
  {
    hide Walk, Ancestor, Climbs, HasParent, Ids;
    var r, m := Ancestor(c, byId, n), n - k;
    AncestorKnown(c, byId, n);
    AncestorSum(c, byId, k, m);
    ClimbsOn(c, byId, k, n);
    WalkClimbs(r, byId, {}, m);
    FirstId(r, byId, m);
    WalkStops(r, byId, {} + Ids(r, byId, m));
  }

  lemma FirstId(c: Comment, byId: Index, n: nat)
    requires n > 0
    ensures c.id in Ids(c, byId, n)
  {
    assert Ancestor(c, byId, 0) == c;
  }

  /** A climb seen from one of the comments on its way. */
  lemma ClimbsOn(c: Comment, byId: Index, k: nat, n: nat)
    requires Climbs(c, byId, {}, n) && k <= n
    ensures Climbs(Ancestor(c, byId, k), byId, {}, n - k)
  {
    hide Ancestor, HasParent;
    var r := Ancestor(c, byId, k);
    forall j: nat
      ensures Ancestor(r, byId, j) == Ancestor(c, byId, k + j)
    {
      AncestorSum(c, byId, k, j);
    }
    forall i: nat, j: nat | i < j < n - k
      ensures Ancestor(r, byId, i).id != Ancestor(r, byId, j).id
    {
      assert Ancestor(r, byId, i) == Ancestor(c, byId, k + i) && Ancestor(r, byId, j) == Ancestor(c, byId, k + j);
    }
  }

  lemma WalkStops(c: Comment, byId: Index, seen: set<int>)
    requires c.id in seen
    ensures Walk(c, byId, seen) == c
  {
  }

  /** Comments, each the parent of the one before it, all different. */
  ghost predicate IsChain(path: seq<Comment>, byId: Index) {
    && path != []
    && (forall k :: 0 <= k < |path| - 1 ==> path[k].parent > 0 && path[k].parent in byId && path[k + 1] == byId[path[k].parent])
    && (forall j, k :: 0 <= j < k < |path| ==> path[j].id != path[k].id)
  }

  ghost function IdsOf(path: seq<Comment>, n: nat): set<int>
    requires n <= |path|
  {
    set k | 0 <= k < n :: path[k].id
  }

  lemma {:induction false} WalkChain(path: seq<Comment>, byId: Index, n: nat)
    requires Indexed(byId) && IsChain(path, byId) && Known(path[0], byId) && n < |path|
    ensures Known(path[n], byId) && Walk(path[0], byId, {}) == Walk(path[n], byId, IdsOf(path, n))
  {
    hide Walk;
    if n == 0 {
      assert IdsOf(path, 0) == {};
    } else {
      WalkChain(path, byId, n - 1);
      assert path[n - 1].id !in IdsOf(path, n - 1);
      WalkStep(path[n - 1], byId, IdsOf(path, n - 1));
      assert IdsOf(path, n - 1) + {path[n - 1].id} == IdsOf(path, n);
    }
  }

  /** The root is the end of the chain of parents: a comment whose parent is missing, */
  lemma RootEndsChain(path: seq<Comment>, byId: Index)
    requires Indexed(byId) && IsChain(path, byId) && Known(path[0], byId)
    requires var last := path[|path| - 1]; last.parent <= 0 || last.parent !in byId
    ensures Root(path[0], byId) == path[|path| - 1]
  {
    WalkChain(path, byId, |path| - 1);
  }

  /** or the one of the chain that comes round first. */
  lemma RootComesRound(path: seq<Comment>, byId: Index, k: nat)
    requires Indexed(byId) && IsChain(path, byId) && Known(path[0], byId) && k < |path|
    requires var last := path[|path| - 1]; last.parent > 0 && last.parent in byId && byId[last.parent] == path[k]
    ensures Root(path[0], byId) == path[k]
  {
    hide Walk;
    var n := |path| - 1;
    WalkChain(path, byId, n);
    assert path[n].id !in IdsOf(path, n);
    WalkStep(path[n], byId, IdsOf(path, n));
    assert path[k].id in IdsOf(path, n) + {path[n].id};
    WalkStops(path[k], byId, IdsOf(path, n) + {path[n].id});
  }

  lemma IdsMoreOf(path: seq<Comment>, next: Comment)
    ensures IdsOf(path + [next], |path| + 1) == IdsOf(path, |path|) + {next.id}
  {
    var more := path + [next];
    forall x | x in IdsOf(path, |path|) + {next.id}
      ensures x in IdsOf(more, |more|)
    {
      if x == next.id {
        assert more[|path|].id == x;
      } else {
        var k :| 0 <= k < |path| && path[k].id == x;
        assert more[k].id == x;
      }
    }
  }

  lemma ChainGrows(path: seq<Comment>, byId: Index, next: Comment)
    requires IsChain(path, byId) && next.id !in IdsOf(path, |path|)
    requires var last := path[|path| - 1]; last.parent > 0 && last.parent in byId && byId[last.parent] == next
    ensures IsChain(path + [next], byId)
  {
    assert forall k :: 0 <= k < |path| ==> path[k].id in IdsOf(path, |path|);
  }

  /** Every comment starts one of these chains. */
  lemma {:induction false} SomeChain(path: seq<Comment>, byId: Index) returns (all: seq<Comment>)
    requires Indexed(byId) && IsChain(path, byId) && forall k :: 0 <= k < |path| ==> Known(path[k], byId)
    ensures path <= all && IsChain(all, byId)
    ensures var last := all[|all| - 1]; last.parent <= 0 || last.parent !in byId || exists k :: 0 <= k < |all| && byId[last.parent] == all[k]
    decreases |byId.Keys - IdsOf(path, |path|)|
  {
    hide IsChain, IdsOf;
    all := path;
    assert path != [] by { NotEmpty(path, byId); }
    var last := path[|path| - 1];
    if last.parent > 0 && last.parent in byId {
      var next := byId[last.parent];
      if next.id in IdsOf(path, |path|) {
        var k := PlaceOf(path, next.id);
        assert Known(path[k], byId);
      } else {
        IdsMoreOf(path, next);
        ChainGrows(path, byId, next);
        assert next.id in byId.Keys - IdsOf(path, |path|);
        ShrinkingSet(byId.Keys - IdsOf(path, |path|), byId.Keys - IdsOf(path + [next], |path| + 1));
        all := SomeChain(path + [next], byId);
      }
    }
  }

  lemma NotEmpty(path: seq<Comment>, byId: Index)
    requires IsChain(path, byId)
    ensures path != []
  {
  }

  lemma PlaceOf(path: seq<Comment>, id: int) returns (k: nat)
    requires id in IdsOf(path, |path|)
    ensures k < |path| && path[k].id == id
  {
    k :| 0 <= k < |path| && path[k].id == id;
  }

  method PageCommentRoot(comment: Comment, byId: Index) returns (current: Comment)
    requires Indexed(byId) && Known(comment, byId)
    ensures current == Root(comment, byId)
  {
    var seen: set<int> := {};
    current := comment;
    while current.parent > 0 && current.id !in seen
      invariant Known(current, byId) && Walk(current, byId, seen) == Root(comment, byId)
      decreases |byId.Keys - seen|
    {
      assert current.id in byId.Keys - seen;
      ShrinkingSet(byId.Keys - seen, byId.Keys - (seen + {current.id}));
      ghost var before := seen;
      if current.parent !in byId {
        break;
      }
      seen := seen + {current.id};
      current := byId[current.parent];
    }
  }

  // ---- partition

  predicate PageLevel(c: Comment, byId: Index) {
    TrimSpace(Root(c, byId).anchor) == ""
  }

  /** A comment below the root of a thread. */
  predicate Replies(c: Comment, byId: Index, root: int) {
    !PageLevel(c, byId) && Root(c, byId).id == root && c.id != root
  }

  function PageComments(s: seq<Comment>, byId: Index): seq<Comment> {
    if s == [] then [] else
    var last := s[|s| - 1];
    PageComments(s[..|s| - 1], byId) + if PageLevel(last, byId) then [last] else []
  }

  function RepliesTo(s: seq<Comment>, byId: Index, root: int): seq<Comment> {
    if s == [] then [] else
    var last := s[|s| - 1];
    RepliesTo(s[..|s| - 1], byId, root) + if Replies(last, byId, root) then [last] else []
  }

  /** A thread: its root, then the replies among the comments in their order. */
  ghost predicate IsThread(t: Thread, byId: Index, s: seq<Comment>) {
    && t.root in byId && Root(byId[t.root], byId) == byId[t.root] && TrimSpace(byId[t.root].anchor) != ""
    && t.anchor == byId[t.root].anchor && t.resolved == byId[t.root].resolved
    && t.comments == [byId[t.root]] + RepliesTo(s, byId, t.root)
  }

  ghost predicate DistinctIds(s: seq<Comment>) {
    forall i, j :: 0 <= i < j < |s| ==> s[i].id != s[j].id
  }

  /** The index holds exactly these comments. */
  ghost predicate Indexes(byId: Index, s: seq<Comment>) {
    && Indexed(byId)
    && (forall k :: 0 <= k < |s| ==> Known(s[k], byId))
    && (forall i :: i in byId ==> byId[i] in s)
  }

  /** The comments by id; of several with one id the last is found. */
  function IndexOf(comments: seq<Comment>): Index {
    if comments == [] then map[] else IndexOf(comments[..|comments| - 1])[comments[|comments| - 1].id := comments[|comments| - 1]]
  }

  lemma {:induction false} IndexIs(comments: seq<Comment>)
    requires DistinctIds(comments)
    ensures Indexes(IndexOf(comments), comments)
  {
    if comments != [] {
      var past, last := comments[..|comments| - 1], comments[|comments| - 1];
      IndexIs(past);
      assert comments == past + [last];
    }
  }

  method BuildIndex(comments: seq<Comment>) returns (byId: Index)
    ensures byId == IndexOf(comments)
  {
    byId := map[];
    var n := 0;
    while n < |comments|
      invariant 0 <= n <= |comments| && byId == IndexOf(comments[..n])
    {
      assert comments[..n + 1][..n] == comments[..n];
      byId := byId[comments[n].id := comments[n]];
      n := n + 1;
    }
    assert comments[..n] == comments;
  }

  /** The threads of a prefix of the comments and where they are found. */
  ghost predicate Threads(threads: seq<Thread>, at: map<int, nat>, byId: Index, s: seq<Comment>) {
    && (forall k :: 0 <= k < |threads| ==> IsThread(threads[k], byId, s))
    && (forall k :: 0 <= k < |threads| ==> threads[k].root in at && at[threads[k].root] == k)
    && (forall r :: r in at ==> at[r] < |threads| && threads[at[r]].root == r)
    && (forall k :: 0 <= k < |s| && !PageLevel(s[k], byId) ==> Root(s[k], byId).id in at)
  }

  lemma Extend(s: seq<Comment>, c: Comment, byId: Index, root: int)
    ensures RepliesTo(s + [c], byId, root) == RepliesTo(s, byId, root) + if Replies(c, byId, root) then [c] else []
    ensures PageComments(s + [c], byId) == PageComments(s, byId) + if PageLevel(c, byId) then [c] else []
  {
    hide PageLevel, Replies;
    assert (s + [c])[..|s|] == s;
  }

  lemma {:induction false} NoRepliesYet(s: seq<Comment>, byId: Index, root: int)
    requires forall k :: 0 <= k < |s| ==> !Replies(s[k], byId, root)
    ensures RepliesTo(s, byId, root) == []
  {
    hide Replies;
    if s != [] {
      NoRepliesYet(s[..|s| - 1], byId, root);
    }
  }

  /** A thread that the next comment does not belong to. */
  lemma ThreadKept(t: Thread, byId: Index, s: seq<Comment>, c: Comment)
    requires IsThread(t, byId, s) && !Replies(c, byId, t.root)
    ensures IsThread(t, byId, s + [c])
  {
    hide Replies, Root, TrimSpace;
    Extend(s, c, byId, t.root);
  }

  lemma ThreadGrows(t: Thread, byId: Index, s: seq<Comment>, c: Comment)
    requires IsThread(t, byId, s) && Replies(c, byId, t.root)
    ensures IsThread(t.(comments := t.comments + [c]), byId, s + [c])
  {
    hide Replies, Root, TrimSpace;
    Extend(s, c, byId, t.root);
  }

  lemma ThreadStarts(byId: Index, s: seq<Comment>, c: Comment, threads: seq<Thread>, at: map<int, nat>)
    requires Indexed(byId) && Known(c, byId) && Threads(threads, at, byId, s) && !PageLevel(c, byId) && Root(c, byId).id !in at
    ensures var r := Root(c, byId); Threads(threads + [Thread(r.id, r.anchor, r.resolved, [r])], at[r.id := |threads|], byId, s)
  {
    hide Root, TrimSpace, IsThread;
    var r := Root(c, byId);
    RootOfRoot(c, byId);
    NoRepliesYet(s, byId, r.id);
    FirstThread(byId, s, r);
  }

  lemma FirstThread(byId: Index, s: seq<Comment>, r: Comment)
    requires Known(r, byId) && Root(r, byId) == r && TrimSpace(r.anchor) != "" && RepliesTo(s, byId, r.id) == []
    ensures IsThread(Thread(r.id, r.anchor, r.resolved, [r]), byId, s)
  {
    hide Root, TrimSpace;
  }

  /** One comment joins its thread, which exists by now. */
  method Join(threads: seq<Thread>, ghost at: map<int, nat>, byId: Index, ghost s: seq<Comment>, c: Comment, index: nat) returns (r: seq<Thread>)
    requires Threads(threads, at, byId, s) && !PageLevel(c, byId) && Root(c, byId).id in at && index == at[Root(c, byId).id]
    ensures Threads(r, at, byId, s + [c]) && |r| == |threads| && forall k :: 0 <= k < |threads| ==> r[k].root == threads[k].root
  {
    hide Root, TrimSpace, IsThread;
    forall k | 0 <= k < |threads| && (k != index || c.id == threads[k].root)
      ensures IsThread(threads[k], byId, s + [c])
    {
      ThreadKept(threads[k], byId, s, c);
    }
    if c.id == threads[index].root {
      return threads;
    }
    ThreadGrows(threads[index], byId, s, c);
    r := threads[index := threads[index].(comments := threads[index].comments + [c])];
  }

  /** The place of the first comment of a thread. */
  function Starts(s: seq<Comment>, byId: Index, root: int): (i: nat)
    ensures i <= |s|
  {
    if s == [] then 0 else
    var before, last := s[..|s| - 1], s[|s| - 1];
    if Starts(before, byId, root) < |before| then Starts(before, byId, root)
    else if !PageLevel(last, byId) && Root(last, byId).id == root then |before| else |s|
  }

  /** That place holds a comment of the thread, and none before it does. */
  lemma {:induction false} StartsFirst(s: seq<Comment>, byId: Index, root: int)
    ensures var i := Starts(s, byId, root);
      && (i < |s| ==> !PageLevel(s[i], byId) && Root(s[i], byId).id == root)
      && forall k :: 0 <= k < i ==> PageLevel(s[k], byId) || Root(s[k], byId).id != root
  {
    hide PageLevel, Root;
    if s != [] {
      StartsFirst(s[..|s| - 1], byId, root);
    }
  }

  /** The threads come in the order of their first comments. */
  ghost predicate InOrderOfStart(threads: seq<Thread>, byId: Index, s: seq<Comment>) {
    && (forall k :: 0 <= k < |threads| ==> Starts(s, byId, threads[k].root) < |s|)
    && (forall j, k :: 0 <= j < k < |threads| ==> Starts(s, byId, threads[j].root) < Starts(s, byId, threads[k].root))
  }

  lemma StartsMore(s: seq<Comment>, c: Comment, byId: Index, root: int)
    ensures Starts(s, byId, root) < |s| ==> Starts(s + [c], byId, root) == Starts(s, byId, root)
    ensures Starts(s, byId, root) == |s| && !PageLevel(c, byId) && Root(c, byId).id == root ==> Starts(s + [c], byId, root) == |s|
  {
    hide PageLevel, Root;
    assert (s + [c])[..|s|] == s;
  }

  lemma OrderKept(threads: seq<Thread>, threads': seq<Thread>, byId: Index, s: seq<Comment>, c: Comment)
    requires InOrderOfStart(threads, byId, s) && |threads'| == |threads| && forall k :: 0 <= k < |threads| ==> threads'[k].root == threads[k].root
    ensures InOrderOfStart(threads', byId, s + [c])
  {
    hide Starts;
    forall k | 0 <= k < |threads|
      ensures Starts(s + [c], byId, threads[k].root) == Starts(s, byId, threads[k].root)
    {
      StartsMore(s, c, byId, threads[k].root);
    }
  }

  /** A thread that the next comment starts. */
  lemma OrderGrows(threads: seq<Thread>, t: Thread, at: map<int, nat>, byId: Index, s: seq<Comment>, c: Comment)
    requires InOrderOfStart(threads, byId, s) && Threads(threads, at, byId, s) && t.root !in at && !PageLevel(c, byId) && Root(c, byId).id == t.root
    ensures InOrderOfStart(threads + [t], byId, s + [c])
  {
    hide Starts, PageLevel, Root, IsThread;
    OrderKept(threads, threads, byId, s, c);
    StartsFirst(s, byId, t.root);
    assert Starts(s, byId, t.root) == |s|;
    StartsMore(s, c, byId, t.root);
    forall k | 0 <= k < |threads|
      ensures Starts(s + [c], byId, threads[k].root) < |s|
    {
      StartsMore(s, c, byId, threads[k].root);
    }
  }

  /** Every comment goes to the page or to the thread of its root; each thread starts with its root. */
  method PartitionPageComments(comments: seq<Comment>) returns (page: seq<Comment>, threads: seq<Thread>)
    requires DistinctIds(comments)
    ensures page == PageComments(comments, IndexOf(comments))
    ensures forall k :: 0 <= k < |threads| ==> IsThread(threads[k], IndexOf(comments), comments)
    ensures forall j, k :: 0 <= j < k < |threads| ==> threads[j].root != threads[k].root
    ensures forall c :: multiset(page)[c] + InThreads(threads, c) == if c in comments then 1 else 0
    ensures InOrderOfStart(threads, IndexOf(comments), comments)
  {
    hide PageLevel, Threads, Root, TrimSpace, PageComments, IsThread, IndexOf, InThreads, InOrderOfStart;
    var lookup := BuildIndex(comments);
    IndexIs(comments);
    ghost var byId := lookup;
    page, threads := [], [];
    var found: map<int, nat> := map[];
    var n := 0;
    NothingYet(byId);
    assert comments[..0] == [];
    while n < |comments|
      invariant 0 <= n <= |comments| && page == PageComments(comments[..n], byId) && Threads(threads, found, byId, comments[..n])
      invariant InOrderOfStart(threads, byId, comments[..n])
    {
      var c := comments[n];
      ghost var s := comments[..n];
      assert comments[..n + 1] == s + [c];
      Extend(s, c, byId, 0);
      var root := PageCommentRoot(c, lookup);
      AtPage(c, byId);
      if TrimSpace(root.anchor) == "" {
        page := page + [c];
        PageKeepsThreads(threads, found, byId, s, c);
        OrderKept(threads, threads, byId, s, c);
      } else {
        ghost var grown := threads;
        if root.id !in found {
          ThreadStarts(byId, s, c, threads, found);
          OrderGrows(threads, Thread(root.id, root.anchor, root.resolved, [root]), found, byId, s, c);
          found := found[root.id := |threads|];
          threads := threads + [Thread(root.id, root.anchor, root.resolved, [root])];
          grown := threads;
        } else {
          OrderKept(threads, threads, byId, s, c);
        }
        threads := Join(threads, found, lookup, s, c, found[root.id]);
        SameRoots(grown, threads, byId, s + [c]);
      }
      n := n + 1;
    }
    assert comments[..n] == comments;
    ThreadsAre(threads, found, byId, comments);
    forall c
      ensures multiset(page)[c] + InThreads(threads, c) == if c in comments then 1 else 0
    {
      EachCommentOnce(comments, page, threads, found, byId, c);
    }
  }

  lemma ThreadsAre(threads: seq<Thread>, at: map<int, nat>, byId: Index, s: seq<Comment>)
    requires Threads(threads, at, byId, s)
    ensures forall k :: 0 <= k < |threads| ==> IsThread(threads[k], byId, s)
    ensures forall j, k :: 0 <= j < k < |threads| ==> threads[j].root != threads[k].root
  {
    hide IsThread, PageLevel, Root;
  }

  lemma SameRoots(threads: seq<Thread>, threads': seq<Thread>, byId: Index, s: seq<Comment>)
    requires InOrderOfStart(threads, byId, s) && |threads'| == |threads| && forall k :: 0 <= k < |threads| ==> threads'[k].root == threads[k].root
    ensures InOrderOfStart(threads', byId, s)
  {
    hide Starts;
  }

  lemma NothingYet(byId: Index)
    ensures PageComments([], byId) == [] && Threads([], map[], byId, []) && InOrderOfStart([], byId, [])
  {
  }

  lemma AtPage(c: Comment, byId: Index)
    ensures PageLevel(c, byId) <==> TrimSpace(Root(c, byId).anchor) == ""
  {
  }

  lemma PageKeepsThreads(threads: seq<Thread>, at: map<int, nat>, byId: Index, s: seq<Comment>, c: Comment)
    requires Threads(threads, at, byId, s) && PageLevel(c, byId)
    ensures Threads(threads, at, byId, s + [c])
  {
    hide Root, TrimSpace, IsThread;
    forall k | 0 <= k < |threads|
      ensures IsThread(threads[k], byId, s + [c])
    {
      ThreadKept(threads[k], byId, s, c);
    }
  }

  // ---- order

  /** The elements of `part` are elements of `whole` in the same order. */
  ghost predicate InOrder<T>(part: seq<T>, whole: seq<T>) {
    exists at: seq<nat> :: Places(part, whole, at)
  }

  ghost predicate Places<T>(part: seq<T>, whole: seq<T>, at: seq<nat>) {
    && |at| == |part| && (forall k :: 0 <= k < |at| ==> at[k] < |whole| && whole[at[k]] == part[k])
    && (forall j, k :: 0 <= j < k < |at| ==> at[j] < at[k])
  }

  lemma InOrderMore<T>(part: seq<T>, whole: seq<T>, x: T, taken: bool)
    requires InOrder(part, whole)
    ensures InOrder(part + if taken then [x] else [], whole + [x])
  {
    var at: seq<nat> :| Places(part, whole, at);
    assert Places(part + if taken then [x] else [], whole + [x], at + if taken then [|whole|] else []);
  }

  /** The page's comments are those whose root has a blank anchor, in the order they came in. */
  lemma {:induction false} PageInOrder(s: seq<Comment>, byId: Index)
    ensures InOrder(PageComments(s, byId), s)
    ensures forall c :: c in PageComments(s, byId) <==> c in s && AllWhite(Root(c, byId).anchor)
  {
    hide Root, TrimSpace, AllWhite, InOrder;
    if s == [] {
      NothingInOrder();
    } else {
      var before, last := s[..|s| - 1], s[|s| - 1];
      assert s == before + [last];
      PageInOrder(before, byId);
      InOrderMore(PageComments(before, byId), before, last, PageLevel(last, byId));
      BlankAnchor(last, byId);
    }
  }

  lemma NothingInOrder()
    ensures InOrder<Comment>([], [])
  {
    assert Places<Comment>([], [], []);
  }

  lemma BlankAnchor(c: Comment, byId: Index)
    ensures PageLevel(c, byId) <==> AllWhite(Root(c, byId).anchor)
  {
    hide Root, TrimSpace;
    var anchor := Root(c, byId).anchor;
    TrimSpaceIs(anchor, "");
    if AllWhite(anchor) {
      assert Padded(anchor, anchor, "", "");
    }
    if a, b :| Padded(anchor, a, "", b) {
      assert anchor == a + b;
    }
  }

  /** The replies of a thread are the other comments with its root, in the order they came in. */
  lemma {:induction false} RepliesInOrder(s: seq<Comment>, byId: Index, root: int)
    ensures InOrder(RepliesTo(s, byId, root), s)
    ensures forall c :: c in RepliesTo(s, byId, root) <==> c in s && Root(c, byId).id == root && c.id != root && !AllWhite(Root(c, byId).anchor)
  {
    hide Root, TrimSpace, AllWhite, InOrder, PageLevel;
    if s == [] {
      NothingInOrder();
    } else {
      var before, last := s[..|s| - 1], s[|s| - 1];
      assert s == before + [last];
      RepliesInOrder(before, byId, root);
      InOrderMore(RepliesTo(before, byId, root), before, last, Replies(last, byId, root));
      BlankAnchor(last, byId);
    }
  }

  // ---- conservation

  /** How often a comment appears in the threads. */
  function InThreads(threads: seq<Thread>, c: Comment): nat {
    if threads == [] then 0 else InThreads(threads[..|threads| - 1], c) + multiset(threads[|threads| - 1].comments)[c]
  }

  lemma {:induction false} CountPage(s: seq<Comment>, byId: Index, c: Comment)
    ensures multiset(PageComments(s, byId))[c] == if PageLevel(c, byId) then multiset(s)[c] else 0
  {
    hide PageLevel;
    if s != [] {
      assert s == s[..|s| - 1] + [s[|s| - 1]];
      CountPage(s[..|s| - 1], byId, c);
    }
  }

  lemma {:induction false} CountReplies(s: seq<Comment>, byId: Index, root: int, c: Comment)
    ensures multiset(RepliesTo(s, byId, root))[c] == if Replies(c, byId, root) then multiset(s)[c] else 0
  {
    hide Replies;
    if s != [] {
      assert s == s[..|s| - 1] + [s[|s| - 1]];
      CountReplies(s[..|s| - 1], byId, root, c);
    }
  }

  lemma {:induction false} CountOnce(s: seq<Comment>, c: Comment)
    requires DistinctIds(s) && c in s
    ensures multiset(s)[c] == 1
  {
    var past, last := s[..|s| - 1], s[|s| - 1];
    assert s == past + [last];
    if c in past {
      CountOnce(past, c);
    }
  }

  /** A thread holds a comment once if it is the comment's own thread, and not at all otherwise. */
  lemma CountInThread(t: Thread, byId: Index, s: seq<Comment>, c: Comment)
    requires DistinctIds(s) && Indexes(byId, s) && IsThread(t, byId, s)
    ensures multiset(t.comments)[c] == if c in s && !PageLevel(c, byId) && Root(c, byId).id == t.root then 1 else 0
  {
    hide Root, TrimSpace;
    CountReplies(s, byId, t.root, c);
    if c in s {
      CountOnce(s, c);
      assert Known(c, byId);
    }
    assert multiset(t.comments) == multiset{byId[t.root]} + multiset(RepliesTo(s, byId, t.root));
    AtPage(c, byId);
  }

  /** Of threads with different roots, at most one holds the comment. */
  lemma {:induction false} CountThreads(threads: seq<Thread>, n: nat, at: map<int, nat>, byId: Index, s: seq<Comment>, c: Comment)
    requires n <= |threads| && DistinctIds(s) && Indexes(byId, s) && Threads(threads, at, byId, s)
    ensures InThreads(threads[..n], c) == if c in s && !PageLevel(c, byId) && Root(c, byId).id in at && at[Root(c, byId).id] < n then 1 else 0
    decreases n
  {
    hide PageLevel, IsThread, Root, Indexes;
    if n > 0 {
      CountThreads(threads, n - 1, at, byId, s, c);
      assert threads[..n][..n - 1] == threads[..n - 1];
      CountInThread(threads[n - 1], byId, s, c);
    }
  }

  /** Partitioning conserves comments: each one appears exactly once on the page or in one thread. */
  lemma EachCommentOnce(comments: seq<Comment>, page: seq<Comment>, threads: seq<Thread>, at: map<int, nat>, byId: Index, c: Comment)
    requires DistinctIds(comments) && Indexes(byId, comments) && page == PageComments(comments, byId) && Threads(threads, at, byId, comments)
    ensures multiset(page)[c] + InThreads(threads, c) == if c in comments then 1 else 0
  {
    hide PageLevel, IsThread, Root, Indexes;
    CountPage(comments, byId, c);
    if c in comments {
      CountOnce(comments, c);
    }
    CountThreads(threads, |threads|, at, byId, comments, c);
    assert threads[..|threads|] == threads;
    if c in comments && !PageLevel(c, byId) {
      var k :| 0 <= k < |comments| && comments[k] == c;
      assert Root(comments[k], byId).id in at;
    }
  }
}
