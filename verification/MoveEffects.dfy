/**
 What a move does, told from the request and the tables before it: where every page ends, what its
 links become, and which error is reported when.
 */
module MoveEffects {
  import opened Options
  import opened TextScan
  import opened WikiLinks
  import opened SqlLike
  import opened PageTables
  import opened PageCommands
  import opened PageInvariant
  import opened PageRuns
  import opened PageLaws

  // ---- requested paths

  predicate AllSlashes(s: string) {
    forall k :: 0 <= k < |s| ==> s[k] == '/'
  }

  lemma {:induction false} LeadingSlashes(l: string, s: string)
    requires AllSlashes(l) && (s != "" ==> s[0] != '/')
    ensures TrimLeftSlashes(l + s) == s
  {
    if l == "" {
      assert l + s == s;
    } else {
      assert (l + s)[1..] == l[1..] + s;
      LeadingSlashes(l[1..], s);
    }
  }

  lemma {:induction false} TrailingSlashes(s: string, r: string)
    requires AllSlashes(r) && (s != "" ==> s[|s| - 1] != '/')
    ensures TrimRightSlashes(s + r) == s
  {
    if r == "" {
      assert s + r == s;
    } else {
      assert (s + r)[..|s + r| - 1] == s + r[..|r| - 1];
      TrailingSlashes(s, r[..|r| - 1]);
    }
  }

  /** White space around a requested path, and slashes within that, do not matter. */
  lemma SourcePathIs(a: string, l: string, s: string, r: string, b: string)
    requires AllWhite(a) && AllSlashes(l) && AllSlashes(r) && AllWhite(b)
    requires s != "" && s[0] != '/' && s[|s| - 1] != '/' && !IsWhiteSpace(s[0]) && !IsWhiteSpace(s[|s| - 1])
    ensures SourcePath(a + (l + s + r) + b) == s
  {
    hide TrimSpace, AllWhite;
    var x := l + s + r;
    assert Padded(a + x + b, a, x, b);
    TrimSpaceIs(a + x + b, x);
    assert x == l + (s + r);
    LeadingSlashes(l, s + r);
    TrailingSlashes(s, r);
  }

  // ---- moves

  /**
   A move of `source` to `target` takes a page to `path`: the page itself to the target, with its
   children every page below it to the same place below the target. A page that the pattern of the
   source selects without being below it keeps its whole path, after the target.
   */
  ghost predicate GoesTo(page: Page, source: string, target: string, children: bool, path: string) {
    && !page.binned
    && (|| (page.slug == source && path == target)
        || (children && source + "/" <= page.slug && path == target + page.slug[|source|..])
        || (children && Like(page.slug, source + "/%") && !(source + "/" <= page.slug) && path == target + page.slug))
  }

  lemma GoesExactly(page: Page, source: string, target: Slug, children: bool, path: string)
    requires Movable(source, target, children)
    ensures GoesTo(page, source, target, children, path) <==> IsSelected(page, source, children) && path == Destination(page.slug, source, target)
  {
    hide Like;
    if source + "/" <= page.slug {
      SlugPrefix(page.slug, source);
      BelowIsSelected(page.slug, source);
    } else if source <= page.slug {
      SlugPrefix(page.slug, source);
      SelectedBelow(page.slug, source);
    }
  }

  lemma SlugPrefix(slug: Slug, source: string)
    requires source <= slug && source != ""
    ensures IsSlug(source)
  {
    assert forall k :: 0 <= k < |source| ==> source[k] == slug[k];
  }

  lemma SelectedBelow(slug: Slug, source: Slug)
    requires source <= slug
    ensures Like(slug, Below(source)) ==> source + "/" <= slug
  {
    LikeBelow(slug, source);
    IsBelowIs(slug, source);
  }

  lemma DestinationsAre(pages: Pages, source: string, target: Slug, children: bool, id: Id)
    requires Movable(source, target, children) && id in pages
    ensures var to := Destinations(pages, source, target, children);
      && (id in to <==> exists path :: GoesTo(pages[id], source, target, children, path))
      && (forall path :: id in to && to[id] == path <==> GoesTo(pages[id], source, target, children, path))
  {
    hide GoesTo, IsSelected;
    var to := Destinations(pages, source, target, children);
    forall path
      ensures id in to && to[id] == path <==> GoesTo(pages[id], source, target, children, path)
    {
      GoesExactly(pages[id], source, target, children, path);
    }
    if id in to {
      assert GoesTo(pages[id], source, target, children, to[id]);
    }
  }

  /** Where every page is after a move. */
  lemma MoveTakes(db: Tables, now: Time, source: string, target: Path, children: bool, updateLinks: bool, id: Id)
    requires MoveResult(db, now, source, target, children, updateLinks).Done? && id in db.pages
    ensures target != ""
    ensures var pages, s := MoveResult(db, now, source, target, children, updateLinks).tables.pages, SourcePath(source);
      && pages.Keys == db.pages.Keys
      && (forall path :: GoesTo(db.pages[id], s, target, children, path) ==> pages[id].slug == path)
      && ((forall path :: !GoesTo(db.pages[id], s, target, children, path)) ==> pages[id].slug == db.pages[id].slug)
  {
    hide GoesTo, MoveResult, MoveAll, CanMove, LinkClash, PathMap, Destinations, SourcePath;
    var to := MoveDone(db, now, source, target, children, updateLinks);
    MoveMovable(db, now, source, target, children, updateLinks);
    MoveAllPages(db, to, updateLinks, now);
    DestinationsAre(db.pages, SourcePath(source), target, children, id);
  }

  lemma MoveMovable(db: Tables, now: Time, source: string, target: Path, children: bool, updateLinks: bool)
    requires MoveResult(db, now, source, target, children, updateLinks).Done?
    ensures Movable(SourcePath(source), target, children)
  {
    hide SourcePath, Movable, Destinations;
  }

  /** A child ends at the same place below the target. */
  lemma ChildFollows(db: Tables, now: Time, source: string, target: Path, updateLinks: bool, id: Id, rest: string)
    requires MoveResult(db, now, source, target, true, updateLinks).Done?
    requires id in db.pages && !db.pages[id].binned && db.pages[id].slug == SourcePath(source) + "/" + rest
    ensures var pages := MoveResult(db, now, source, target, true, updateLinks).tables.pages; id in pages && pages[id].slug == target + "/" + rest
  {
    hide MoveResult, SourcePath;
    var s, page := SourcePath(source), db.pages[id];
    MoveTakes(db, now, source, target, true, updateLinks, id);
    assert page.slug == s + ("/" + rest) && target + "/" + rest == target + ("/" + rest);
    assert page.slug[|s|..] == "/" + rest;
    assert s + "/" <= page.slug;
    assert GoesTo(page, s, target, true, target + "/" + rest);
  }

  // ---- when a move fails

  ghost predicate MovesSomething(pages: Pages, source: string, target: string, children: bool) {
    exists i, path :: i in pages && GoesTo(pages[i], source, target, children, path)
  }

  /** Two pages at one path: a destination is another page's path, now or before, or its destination. */
  ghost predicate Collides(pages: Pages, aliases: Aliases, source: string, target: string, children: bool) {
    exists i, j, path :: i != j && i in pages && GoesTo(pages[i], source, target, children, path)
      && (Owns(pages, aliases, j, path) || (j in pages && GoesTo(pages[j], source, target, children, path)))
  }

  /** Some page links to a moved page both under its old path and under its new one. */
  ghost predicate LinksBoth(pages: Pages, links: set<LinkRow>, source: string, target: string, children: bool) {
    exists i, path, page :: i in pages && GoesTo(pages[i], source, target, children, path)
      && LinkRow(page, pages[i].slug) in links && LinkRow(page, path) in links
  }

  lemma NoDestinations(pages: Pages, source: string, target: Slug, children: bool)
    requires Movable(source, target, children)
    ensures Destinations(pages, source, target, children) == map[] <==> !MovesSomething(pages, source, target, children)
  {
    hide GoesTo, Destinations, Movable;
    var to := Destinations(pages, source, target, children);
    forall i | i in pages
      ensures i in to <==> exists path :: GoesTo(pages[i], source, target, children, path)
    {
      DestinationsAre(pages, source, target, children, i);
    }
    DestinationsOf(pages, source, target, children);
    if forall i :: i !in to {
      EmptyMap(to);
    } else {
      var i :| i in to;
      assert i in pages;
    }
  }

  lemma DestinationsOf(pages: Pages, source: string, target: Slug, children: bool)
    ensures Destinations(pages, source, target, children).Keys <= pages.Keys
  {
  }

  lemma EmptyMap(to: map<Id, Slug>)
    requires forall i :: i !in to
    ensures to == map[]
  {
    assert forall i :: i !in to;
  }

  lemma CollidesIs(pages: Pages, aliases: Aliases, source: string, target: Slug, children: bool)
    requires Movable(source, target, children)
    ensures var to := Destinations(pages, source, target, children);
      SomeTaken(pages, aliases, to) || !Injective(to) <==> Collides(pages, aliases, source, target, children)
  {
    hide GoesTo, Destinations, Movable, Owns;
    var to := Destinations(pages, source, target, children);
    DestinationsOf(pages, source, target, children);
    forall i | i in pages
      ensures forall path :: i in to && to[i] == path <==> GoesTo(pages[i], source, target, children, path)
    {
      DestinationsAre(pages, source, target, children, i);
    }
    if SomeTaken(pages, aliases, to) {
      var i :| i in to && Taken(pages, aliases, i, to[i]);
      var j := TakenBy(pages, aliases, i, to[i]);
      assert GoesTo(pages[i], source, target, children, to[i]);
    }
    if !Injective(to) {
      var i, j :| i in to && j in to && to[i] == to[j] && i != j;
      assert GoesTo(pages[i], source, target, children, to[i]) && GoesTo(pages[j], source, target, children, to[i]);
    }
    if Collides(pages, aliases, source, target, children) {
      var i, j, path :| i != j && i in pages && GoesTo(pages[i], source, target, children, path)
        && (Owns(pages, aliases, j, path) || (j in pages && GoesTo(pages[j], source, target, children, path)));
      if Owns(pages, aliases, j, path) {
        OwnedIsTaken(pages, aliases, i, j, path);
      }
    }
  }

  lemma TakenBy(pages: Pages, aliases: Aliases, i: Id, path: string) returns (j: Id)
    requires Taken(pages, aliases, i, path)
    ensures j != i && Owns(pages, aliases, j, path)
  {
    if other :| other != i && Holds(pages, other, path) {
      j := other;
    } else {
      j := aliases[path];
    }
  }

  lemma OwnedIsTaken(pages: Pages, aliases: Aliases, i: Id, j: Id, path: string)
    requires j != i && Owns(pages, aliases, j, path)
    ensures Taken(pages, aliases, i, path)
  {
  }

  lemma LinksBothIs(db: Tables, source: string, target: Slug, children: bool)
    requires PathsOk(db.pages, db.aliases) && Movable(source, target, children)
    requires CanMove(db.pages, db.aliases, Destinations(db.pages, source, target, children))
    ensures LinkClash(db.links, PathMap(db.pages, Destinations(db.pages, source, target, children))) <==> LinksBoth(db.pages, db.links, source, target, children)
  {
    hide GoesTo, Destinations, Movable, PathsOk, CanMove, PathMap, PageAt;
    var to := Destinations(db.pages, source, target, children);
    var m := PathMap(db.pages, to);
    DestinationsOf(db.pages, source, target, children);
    forall i | i in db.pages
      ensures forall path :: i in to && to[i] == path <==> GoesTo(db.pages[i], source, target, children, path)
    {
      DestinationsAre(db.pages, source, target, children, i);
    }
    if LinkClash(db.links, m) {
      var l :| l in db.links && l.target in m && LinkRow(l.source, m[l.target]) in db.links;
      PathMapAt(db.pages, db.aliases, to, l.target);
      var i := PageAt(db.pages, l.target).value;
      assert GoesTo(db.pages[i], source, target, children, to[i]);
      assert l == LinkRow(l.source, db.pages[i].slug);
    }
    if LinksBoth(db.pages, db.links, source, target, children) {
      var i, path, page :| i in db.pages && GoesTo(db.pages[i], source, target, children, path)
        && LinkRow(page, db.pages[i].slug) in db.links && LinkRow(page, path) in db.links;
      PathMapAt(db.pages, db.aliases, to, db.pages[i].slug);
      AtPath(db.pages, db.aliases, i);
      var l := LinkRow(page, db.pages[i].slug);
      assert l in db.links && l.target in m && LinkRow(l.source, m[l.target]) in db.links;
    }
  }

  predicate BadMove(source: string, target: string, children: bool) {
    source == "" || target == "" || source == target || (children && source + "/" <= target)
  }

  /** Exactly when a move succeeds, and which error it reports otherwise. */
  lemma MoveOutcome(db: Tables, now: Time, source: string, target: Path, children: bool, updateLinks: bool)
    requires Inv(db)
    ensures var r, s := MoveResult(db, now, source, target, children, updateLinks), SourcePath(source);
      && (r == Failed(Invalid) <==> BadMove(s, target, children))
      && (r == Failed(NotFound) <==> !BadMove(s, target, children) && !MovesSomething(db.pages, s, target, children))
      && (r == Failed(AlreadyExists) <==> !BadMove(s, target, children) && Collides(db.pages, db.aliases, s, target, children))
      && (r == Failed(Constraint) <==> !BadMove(s, target, children) && !Collides(db.pages, db.aliases, s, target, children) && LinksBoth(db.pages, db.links, s, target, children))
      && (r.Done? || r in {Failed(Invalid), Failed(NotFound), Failed(AlreadyExists), Failed(Constraint)})
  {
    hide GoesTo, MoveAll, LinkClash, PathMap, Destinations, SourcePath, SomeTaken, Injective, Collides, CanMove, HistoryOk, ReviewsOk, SuggestionsOk, FeedbackOk, LinksOk, IdsOk, PathsOk;
    var s := SourcePath(source);
    assert BadMove(s, target, children) <==> !Movable(s, target, children);
    if Movable(s, target, children) {
      NoDestinations(db.pages, s, target, children);
      CollidesIs(db.pages, db.aliases, s, target, children);
      SomethingMoves(db, s, target, children);
      if !Collides(db.pages, db.aliases, s, target, children) {
        MoveChecks(db, s, target, children);
        LinksBothIs(db, s, target, children);
      }
    }
  }

  lemma SomethingMoves(db: Tables, source: string, target: string, children: bool)
    ensures Collides(db.pages, db.aliases, source, target, children) || LinksBoth(db.pages, db.links, source, target, children) ==>
      MovesSomething(db.pages, source, target, children)
  {
    hide GoesTo;
  }

  // ---- what else a move changes

  /** A moved or rewritten page gets the transaction's token; nothing but path, text and token changes in any row. */
  lemma MovedRest(db: Tables, now: Time, source: string, target: Path, children: bool, updateLinks: bool, id: Id)
    requires MoveResult(db, now, source, target, children, updateLinks).Done? && id in db.pages
    ensures target != ""
    ensures var pages, page := MoveResult(db, now, source, target, children, updateLinks).tables.pages, db.pages[id];
      && id in pages && pages[id] == page.(slug := pages[id].slug, markdown := pages[id].markdown, updatedAt := pages[id].updatedAt)
      && (page.binned || !updateLinks ==> pages[id].markdown == page.markdown)
      && pages[id].updatedAt == if pages[id].slug != page.slug || pages[id].markdown != page.markdown then now else page.updatedAt
  {
    hide GoesTo, MoveResult, MoveAll, CanMove, LinkClash, PathMap, Destinations, SourcePath;
    var to := MoveDone(db, now, source, target, children, updateLinks);
    MoveMovable(db, now, source, target, children, updateLinks);
    MoveAllRest(db, to, updateLinks, now, id);
  }

  lemma MoveAllRest(db: Tables, to: map<Id, Slug>, updateLinks: bool, now: Time, id: Id)
    requires CanMove(db.pages, db.aliases, to) && id in db.pages
    ensures var pages, page := MoveAll(db, to, updateLinks, now).pages, db.pages[id];
      && id in pages && pages[id] == page.(slug := pages[id].slug, markdown := pages[id].markdown, updatedAt := pages[id].updatedAt)
      && (page.binned || !updateLinks ==> pages[id].markdown == page.markdown)
      && pages[id].updatedAt == if pages[id].slug != page.slug || pages[id].markdown != page.markdown then now else page.updatedAt
  {
    hide PathMap, MovedAliases, Substitute, Taken, Injective, Append;
  }

  /** What a link target becomes in a move: the new path of the moved page that it is the path of. */
  ghost predicate Becomes(pages: Pages, source: string, target: string, children: bool, old_: string, new_: string) {
    || (exists i :: i in pages && pages[i].slug == old_ && GoesTo(pages[i], source, target, children, new_))
    || (old_ == new_ && forall i, path :: i in pages && pages[i].slug == old_ ==> !GoesTo(pages[i], source, target, children, path))
  }

  lemma BecomesIs(db: Tables, source: string, target: Slug, children: bool, old_: string, new_: string)
    requires PathsOk(db.pages, db.aliases) && Movable(source, target, children)
    requires CanMove(db.pages, db.aliases, Destinations(db.pages, source, target, children))
    ensures Target(PathMap(db.pages, Destinations(db.pages, source, target, children)), old_) == new_ <==> Becomes(db.pages, source, target, children, old_, new_)
  {
    hide GoesTo, Destinations, Movable, PathsOk, CanMove, PathMap, PageAt;
    var to := Destinations(db.pages, source, target, children);
    PathMapAt(db.pages, db.aliases, to, old_);
    if at :| at in db.pages && db.pages[at].slug == old_ {
      AtPath(db.pages, db.aliases, at);
      DestinationsAre(db.pages, source, target, children, at);
      forall i | i in db.pages && db.pages[i].slug == old_
        ensures i == at
      {
        AtPath(db.pages, db.aliases, i);
      }
    } else if PageAt(db.pages, old_).Some? {
      HoldsAt(db.pages, old_);
    }
  }

  /** The link rows after a move are those before it, each with its new target. */
  lemma MovedLinkRows(db: Tables, now: Time, source: string, target: Path, children: bool, updateLinks: bool, page: Id, new_: string)
    requires Inv(db) && MoveResult(db, now, source, target, children, updateLinks).Done?
    ensures LinkRow(page, new_) in MoveResult(db, now, source, target, children, updateLinks).tables.links <==>
      exists old_ :: LinkRow(page, old_) in db.links && Becomes(db.pages, SourcePath(source), target, children, old_, new_)
  {
    hide MoveResult, MoveAll, CanMove, LinkClash, PathMap, Destinations, SourcePath, Becomes, Target, PathsOk, HistoryOk, ReviewsOk, SuggestionsOk, FeedbackOk, LinksOk, IdsOk;
    var to := MoveDone(db, now, source, target, children, updateLinks);
    var m := PathMap(db.pages, to);
    MoveMovable(db, now, source, target, children, updateLinks);
    MoveAllAliases(db, to, updateLinks, now);
    if LinkRow(page, new_) in Retargeted(db.links, m) {
      var l :| l in db.links && LinkRow(page, new_) == LinkRow(l.source, Target(m, l.target));
      BecomesIs(db, SourcePath(source), target, children, l.target, new_);
      assert l == LinkRow(page, l.target);
    }
    if old_ :| LinkRow(page, old_) in db.links && Becomes(db.pages, SourcePath(source), target, children, old_, new_) {
      BecomesIs(db, SourcePath(source), target, children, old_, new_);
      var l := LinkRow(page, old_);
      assert LinkRow(l.source, Target(m, l.target)) in Retargeted(db.links, m);
    }
  }

  /** And so are the links in the texts that the move rewrites. */
  lemma MovedLinkTexts(db: Tables, now: Time, source: string, target: Path, children: bool, page: Id, k: nat)
    requires Inv(db) && MoveResult(db, now, source, target, children, true).Done? && page in db.pages && !db.pages[page].binned
    requires k < |Links(db.pages[page].markdown)|
    ensures var pages := MoveResult(db, now, source, target, children, true).tables.pages;
      && page in pages && |Links(pages[page].markdown)| == |Links(db.pages[page].markdown)|
      && var before, after := Links(db.pages[page].markdown)[k], Links(pages[page].markdown)[k];
      after.ending == before.ending && Becomes(db.pages, SourcePath(source), target, children, before.target, after.target)
  {
    hide MoveResult, MoveAll, CanMove, LinkClash, PathMap, Destinations, SourcePath, Becomes, Links, Retarget, TargetText, PathsOk, HistoryOk, ReviewsOk, SuggestionsOk, FeedbackOk, LinksOk, IdsOk;
    var to := MoveDone(db, now, source, target, children, true);
    var m := PathMap(db.pages, to);
    MoveMovable(db, now, source, target, children, true);
    MoveAllPages(db, to, true, now);
    PathMapKeepsTargets(db, to);
    LinksRenamed(db.pages[page].markdown, Renamed(m));
    var before := Links(db.pages[page].markdown)[k];
    BecomesIs(db, SourcePath(source), target, children, before.target, Target(m, before.target));
  }

  // ---- bulk moves

  /** The last element of a path. */
  predicate EndsIn(path: string, last: string) {
    '/' !in last && (path == last || (|path| > |last| && path == path[..|path| - |last| - 1] + "/" + last))
  }

  lemma {:induction false} BaseIs(path: string, last: string)
    requires EndsIn(path, last)
    ensures Base(path) == last
  {
    if path != last {
      assert path[|path| - |last| - 1] == '/';
      assert path[1..][|path[1..]| - |last|..] == last;
      if |path| > |last| + 1 {
        assert path[1..][..|path[1..]| - |last| - 1] == path[..|path| - |last| - 1][1..];
        assert path[1..] == path[1..][..|path[1..]| - |last| - 1] + "/" + last;
      } else {
        assert path[1..] == last;
      }
      BaseIs(path[1..], last);
    }
  }

  lemma {:induction false} BaseEnds(path: string)
    ensures EndsIn(path, Base(path))
  {
    hide EndsIn;
    if '/' in path {
      BaseEnds(path[1..]);
      EndsInMore(path[0], path[1..], Base(path));
      assert path == [path[0]] + path[1..];
    } else {
      assert EndsIn(path, path) by { OneElement(path); }
    }
  }

  lemma OneElement(path: string)
    requires '/' !in path
    ensures EndsIn(path, path)
  {
  }

  lemma EndsInMore(c: char, path: string, last: string)
    requires EndsIn(path, last) && (path == last ==> c == '/')
    ensures EndsIn([c] + path, last)
  {
    var more := [c] + path;
    if path == last {
      assert more[..|more| - |last| - 1] == "";
    } else {
      assert more[..|more| - |last| - 1] == [c] + path[..|path| - |last| - 1];
    }
  }

  /** A path that a bulk move names; both the bulk move and each single move normalize it. */
  ghost predicate IsListed(slugs: seq<string>, path: string) {
    exists k :: 0 <= k < |slugs| && SourcePath(SourcePath(slugs[k])) == path
  }

  lemma ListedFirst(slugs: seq<string>, path: string)
    requires slugs != []
    ensures IsListed(slugs, path) <==> SourcePath(SourcePath(slugs[0])) == path || IsListed(slugs[1..], path)
  {
    hide SourcePath;
    if IsListed(slugs[1..], path) {
      var k :| 0 <= k < |slugs[1..]| && SourcePath(SourcePath(slugs[1..][k])) == path;
      assert slugs[k + 1] == slugs[1..][k];
    }
    if k :| 0 < k < |slugs| && SourcePath(SourcePath(slugs[k])) == path {
      assert slugs[1..][k - 1] == slugs[k];
    }
  }

  lemma {:induction false} TrimLeftSlashesIs(s: string)
    ensures var r := TrimLeftSlashes(s); r == s[|s| - |r|..] && AllSlashes(s[..|s| - |r|])
  {
    if s != "" && s[0] == '/' {
      TrimLeftSlashesIs(s[1..]);
      var r := TrimLeftSlashes(s);
      assert s[..|s| - |r|] == "/" + s[1..][..|s[1..]| - |r|];
    }
  }

  lemma {:induction false} TrimRightSlashesIs(s: string)
    ensures var r := TrimRightSlashes(s); r == s[..|r|] && AllSlashes(s[|r|..]) && (r != "" ==> r[|r| - 1] != '/')
  {
    if s != "" && s[|s| - 1] == '/' {
      TrimRightSlashesIs(s[..|s| - 1]);
      var r := TrimRightSlashes(s);
      assert s[|r|..] == s[..|s| - 1][|r|..] + "/";
    }
  }

  /** `z` is `y` from position `i` on, without some slashes and white space at the ends. */
  ghost predicate IsPart(y: string, z: string, i: nat) {
    && i + |z| <= |y| && z == y[i..i + |z|]
    && forall k :: 0 <= k < |y| && (k < i || i + |z| <= k) ==> Trimmed(y[k])
  }

  /** Normalization removes slashes and white space at both ends and leaves no slash at the end. */
  lemma SourcePathPart(s: string) returns (i: nat)
    ensures IsPart(s, SourcePath(s), i)
    ensures SourcePath(s) != "" ==> SourcePath(s)[|SourcePath(s)| - 1] != '/'
  {
    hide TrimSpace, IsWhiteSpace, TrimLeftSlashes, TrimRightSlashes;
    var a, b := TrimSpacePads(s);
    var t := TrimSpace(s);
    var l := TrimLeftSlashes(t);
    TrimLeftSlashesIs(t);
    TrimRightSlashesIs(l);
    var r := TrimRightSlashes(l);
    var front := t[..|t| - |l|];
    assert s == a + front + r + l[|r|..] + b;
    i := |a| + |front|;
    Sides(a, front, r, l[|r|..], b);
  }

  lemma Sides(a: string, l: string, s: string, r: string, b: string)
    requires AllWhite(a) && AllSlashes(l) && AllSlashes(r) && AllWhite(b)
    ensures var all := a + l + s + r + b;
      && all[|a| + |l|..|a| + |l| + |s|] == s
      && forall k :: 0 <= k < |all| && (k < |a| + |l| || |a| + |l| + |s| <= k) ==> Trimmed(all[k])
  {
    hide IsWhiteSpace;
  }

  /** Characters that normalization may remove at an end. */
  predicate Trimmed(c: char) {
    c == '/' || IsWhiteSpace(c)
  }

  lemma ElementKept(slug: string, target: Path, last: string)
    requires IsSlug(target + "/" + last) && '/' !in last
    ensures forall k :: 0 <= k < |last| ==> !Trimmed(last[k])
  {
    hide IsWhiteSpace, SlugChar;
    forall k | 0 <= k < |last|
      ensures !Trimmed(last[k])
    {
      assert (target + "/" + last)[|target| + 1 + k] == last[k];
      assert last[k] in last;
      PathChar(last[k]);
    }
  }

  lemma PathChar(c: char)
    requires SlugChar(c)
    ensures !IsWhiteSpace(c)
  {
  }

  /** Normalizing once more keeps the last element if that is part of a page path. */
  lemma Renormalized(slug: string, target: Path)
    requires SourcePath(slug) != "" && IsSlug(target + "/" + Base(SourcePath(slug)))
    ensures Base(SourcePath(SourcePath(slug))) == Base(SourcePath(slug))
  {
    hide SourcePath, Base, Trimmed, IsSlug, EndsIn, IsPart;
    var y := SourcePath(slug);
    var last := Base(y);
    var j := SourcePathPart(slug);
    BaseEnds(y);
    var i := SourcePathPart(y);
    var z := SourcePath(y);
    assert '/' !in last by { NoSlash(y, last); }
    ElementKept(slug, target, last);
    SuffixEnds(y, last, i, z);
    BaseIs(z, last);
  }

  lemma NoSlash(path: string, last: string)
    requires EndsIn(path, last)
    ensures '/' !in last
  {
  }

  lemma SuffixEnds(y: string, last: string, i: nat, z: string)
    requires y != "" && y[|y| - 1] != '/' && EndsIn(y, last) && IsPart(y, z, i)
    requires forall k :: 0 <= k < |last| ==> !Trimmed(last[k])
    ensures EndsIn(z, last)
  {
    hide Trimmed;
    if y == last {
      assert !Trimmed(y[0]) && !Trimmed(y[|y| - 1]);
    } else {
      var front := y[..|y| - |last| - 1];
      LastKept(front, last, i, |z|);
      if i <= |front| {
        assert z == front[i..] + "/" + last;
      } else {
        assert z == last;
      }
    }
  }

  lemma LastKept(front: string, last: string, i: nat, n: nat)
    requires last != "" && var y := front + "/" + last; i + n <= |y| && forall k :: 0 <= k < |y| && (k < i || i + n <= k) ==> Trimmed(y[k])
    requires forall k :: 0 <= k < |last| ==> !Trimmed(last[k])
    ensures i <= |front| + 1 && i + n == |front| + 1 + |last|
  {
    hide Trimmed;
    var y := front + "/" + last;
    assert y[|front| + 1] == last[0] && y[|y| - 1] == last[|last| - 1];
  }

  /** One page of a bulk move. */
  lemma BulkOneTakes(db: Tables, now: Time, slug: string, target: Path, id: Id)
    requires Inv(db) && BulkMoveOne(db, now, slug, target).Done? && id in db.pages
    ensures var next, page := BulkMoveOne(db, now, slug, target).tables, db.pages[id];
      && Inv(next) && id in next.pages && next.pages[id].binned == page.binned
      && next.pages[id].slug == if !page.binned && page.slug == SourcePath(SourcePath(slug)) then target + "/" + Base(page.slug) else page.slug
  {
    hide Inv, MoveResult, SourcePath, Base, IsSlug;
    var source := SourcePath(slug);
    var destination := target + "/" + Base(source);
    MoveKeeps(db, now, source, destination, false, true);
    AfterMove(db, MoveResult(db, now, source, destination, false, true).tables, now);
    MoveTakes(db, now, source, destination, false, true, id);
    MovedRest(db, now, source, destination, false, true, id);
    Renormalized(slug, target);
    if !db.pages[id].binned && db.pages[id].slug == SourcePath(source) {
      assert GoesTo(db.pages[id], SourcePath(source), destination, false, destination);
    } else {
      assert forall path :: !GoesTo(db.pages[id], SourcePath(source), destination, false, path);
    }
  }

  lemma AfterMove(db: Tables, db': Tables, now: Time)
    requires Keeps(db, db', now)
    ensures Inv(db')
  {
  }

  lemma {:induction false} BulkTakes(db: Tables, now: Time, slugs: seq<string>, target: Path, id: Id)
    requires Inv(db) && BulkMoveFrom(db, now, slugs, target).Done? && id in db.pages
    ensures var pages, page := BulkMoveFrom(db, now, slugs, target).tables.pages, db.pages[id];
      id in pages && pages[id].slug == if !page.binned && IsListed(slugs, page.slug) then target + "/" + Base(page.slug) else page.slug
    decreases |slugs|
  {
    hide Inv, BulkMoveOne, Base, SourcePath, IsListed;
    if slugs == [] {
      NothingListed(db.pages[id].slug);
    } else {
      var next, page := BulkMoveOne(db, now, slugs[0], target).tables, db.pages[id];
      BulkOneTakes(db, now, slugs[0], target, id);
      ListedFirst(slugs, page.slug);
      BulkTakes(next, now, slugs[1..], target, id);
      BaseBelow(target, page.slug);
    }
  }

  lemma NothingListed(path: string)
    ensures !IsListed([], path)
  {
  }

  lemma BaseBelow(target: string, path: string)
    ensures Base(target + "/" + Base(path)) == Base(path)
  {
    hide Base;
    BaseEnds(path);
    var last := Base(path);
    assert (target + "/" + last)[..|target|] == target;
    BaseIs(target + "/" + last, last);
  }

  /** A bulk move takes each listed live page below the target, under the last element of its path, and no other page. */
  lemma BulkMoveTakes(db: Tables, now: Time, slugs: seq<string>, target: Path, id: Id)
    requires Inv(db) && BulkMoveResult(db, now, slugs, target).Done? && id in db.pages
    ensures var pages, page := BulkMoveResult(db, now, slugs, target).tables.pages, db.pages[id];
      && id in pages
      && (!page.binned && IsListed(slugs, page.slug) ==> forall last :: EndsIn(page.slug, last) ==> pages[id].slug == target + "/" + last)
      && (page.binned || !IsListed(slugs, page.slug) ==> pages[id].slug == page.slug)
  {
    hide Inv, BulkMoveFrom, Base, IsListed, EndsIn;
    BulkTakes(db, now, slugs, target, id);
    forall last | EndsIn(db.pages[id].slug, last)
      ensures Base(db.pages[id].slug) == last
    {
      BaseIs(db.pages[id].slug, last);
    }
  }
}
