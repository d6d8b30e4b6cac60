/** What saves, moves and applied suggestions mean for a page's readers. */
module PageLaws {
  import opened Options
  import opened TextScan
  import opened WikiLinks
  import opened SqlLike
  import opened ReviewEdits
  import opened PageTables
  import opened PageCommands
  import opened PageInvariant
  import opened PageRuns

  // ---- saves

  /** What a save does to the history, the reviews and the version token of the page it edits. */
  ghost predicate SavedAs(db: Tables, db': Tables, id: Id, changed: bool, now: Time) {
    && id in db.pages && id in db'.pages && id in db.history
    && (changed ==>
          && db'.pages[id].updatedAt == now && db'.reviews == Closed(db.reviews, id)
          && db'.history == db.history[id := db.history[id] + [Revision(|db.history[id]| + 1, db'.pages[id].markdown)]])
    && (!changed ==> db'.pages[id] == db.pages[id].(render := db'.pages[id].render) && db'.reviews == db.reviews && db'.history == db.history)
  }

  lemma WrittenAs(db: Tables, before: Page, id: Id, input: SaveInput, now: Time)
    requires Inv(db) && id in db.pages
    ensures var db', after := Write(db, before, id, input, now), EditedPage(before, input, now);
      && id in db'.pages && id in db.history
      && (SameContent(before, after) ==> db'.pages[id] == before.(render := input.render) && db'.reviews == db.reviews && db'.history == db.history)
      && (!SameContent(before, after) ==>
            && db'.pages[id] == after && db'.reviews == Closed(db.reviews, id)
            && db'.history == db.history[id := db.history[id] + [Revision(|db.history[id]| + 1, after.markdown)]])
  {
    hide Inv, Current, Elements, Closed, SameContent, Revised, EditedPage;
    CurrentIs(db, id);
    EditedIs(before, input, now);
    RevisedIs(SetLinks(db, id, Elements(input.links)), id, EditedPage(before, input, now));
  }

  lemma RevisedIs(db: Tables, id: Id, page: Page)
    requires id in db.pages && id in db.history
    ensures var db' := Revised(db, map[id := page]);
      && id in db'.pages && db'.pages[id] == page && db'.reviews == db.reviews
      && db'.history == db.history[id := db.history[id] + [Revision(Current(db.history, id) + 1, page.markdown)]]
  {
    hide Current;
  }

  /**
   A save of an existing page either changes something a revision records, and then adds exactly
   one revision, takes the new token and closes the open reviews, or changes only the artifact.
   */
  lemma SaveRevisesOrKeeps(db: Tables, now: Time, input: SaveInput, id: Id)
    requires Inv(db) && SaveResult(db, now, input).Done? && PageAt(db.pages, LookupSlug(input)) == Some(id)
    ensures SavedAs(db, SaveResult(db, now, input).tables, id, !SameContent(db.pages[id], EditedPage(db.pages[id], input, now)), now)
  {
    hide Inv, Keeps, Rename, Write, SameContent, Closed;
    RenameKeeps(db, id, input.slug, now);
    var renamed := Rename(db, id, input.slug, now).tables;
    RenameRest(db, id, input.slug, now);
    KeepsInv(db, renamed, now);
    WrittenAs(renamed, db.pages[id], id, input, now);
    EditedIs(db.pages[id], input, now);
  }

  /** After a new revision no review of the page is open, and the other pages' reviews are as before. */
  lemma NoOpenReviewLeft(reviews: Reviews, page: Id, r: Id)
    requires r in reviews
    ensures r in Closed(reviews, page)
    ensures reviews[r].page == page ==> Closed(reviews, page)[r].status in {Approved, Canceled, Superseded}
    ensures reviews[r].page != page ==> Closed(reviews, page)[r] == reviews[r]
  {
  }

  lemma EditedIs(before: Page, input: SaveInput, now: Time)
    ensures EditedPage(before, input, now).updatedAt == now
    ensures SameContent(before, EditedPage(before, input, now)) ==> EditedPage(before, input, now).(updatedAt := before.updatedAt) == before.(render := input.render)
  {
  }

  lemma RenameRest(db: Tables, id: Id, slug: Slug, now: Time)
    requires id in db.pages && Rename(db, id, slug, now).Done?
    ensures Rename(db, id, slug, now).tables.reviews == db.reviews && Rename(db, id, slug, now).tables.history == db.history
  {
    hide Taken, MovedAliases;
  }

  /** A save that finds no page creates one with its first revision, under a path nobody ever had. */
  lemma SaveCreates(db: Tables, now: Time, input: SaveInput)
    requires Inv(db) && SaveResult(db, now, input).Done? && PageAt(db.pages, LookupSlug(input)).None?
    ensures var db' := SaveResult(db, now, input).tables;
      && db'.pages == db.pages[db.nextId := NewPage(input, now)] && db.nextId !in db.pages
      && db'.history == db.history[db.nextId := [Revision(1, input.markdown)]] && db'.reviews == db.reviews && db'.aliases == db.aliases
    ensures forall i :: !Owns(db.pages, db.aliases, i, input.slug)
  {
    hide PathsOk, HistoryOk, ReviewsOk, SuggestionsOk, FeedbackOk, Elements;
  }

  // ---- round trips

  /** Restoring a page from the bin undoes moving it there. */
  lemma RestoreUndoesBin(db: Tables, slug: string)
    requires Inv(db) && BinResult(db, slug).Done?
    ensures RestoreResult(BinResult(db, slug).tables, slug) == Done(db)
  {
    hide PageAt, HistoryOk, ReviewsOk, SuggestionsOk, FeedbackOk, IdsOk;
    var id := LiveAt(db.pages, slug).value;
    var binned := BinResult(db, slug).tables;
    BinKeeps(db, 0, slug);
    AtPath(binned.pages, binned.aliases, id);
    assert binned.pages[id := binned.pages[id].(binned := false)] == db.pages;
  }

  /** The rows of a requested review. */
  lemma RequestRows(db: Tables, now: Time, slug: string, reviewers: seq<Id>, group: int) returns (id: Id)
    requires RequestResult(db, now, slug, reviewers, group).Done?
    ensures LiveAt(db.pages, slug) == Some(id) && !HasPending(db.reviews, id)
    ensures RequestResult(db, now, slug, reviewers, group).tables ==
      db.(pages := db.pages[id := db.pages[id].(status := Draft, updatedAt := now)],
          reviews := db.reviews[db.nextId := Review(id, Current(db.history, id), Pending, db.pages[id].status, Elements(reviewers), group)],
          nextId := db.nextId + 1)
  {
    hide LiveAt, Elements, Current, HasPending;
    id := LiveAt(db.pages, slug).value;
  }

  /** Canceling a pending review of the current revision of a draft. */
  lemma CancelRows(db: Tables, now: Time, review: Id, slug: string, id: Id)
    requires PathsOk(db.pages, db.aliases) && Holds(db.pages, id, slug) && !db.pages[id].binned && db.pages[id].status.Draft?
    requires review in db.reviews && db.reviews[review].page == id && db.reviews[review].status.Pending? && db.reviews[review].revision == Current(db.history, id)
    ensures CancelResult(db, now, review, slug) ==
      Done(db.(pages := db.pages[id := db.pages[id].(status := db.reviews[review].previous, updatedAt := now)],
               reviews := db.reviews[review := db.reviews[review].(status := Canceled)]))
  {
    hide PageAt, Current, PathsOk;
    AtPath(db.pages, db.aliases, id);
  }

  lemma NoneLeftPending(reviews: Reviews, page: Id, review: Id, row: Review)
    requires !HasPending(reviews, page) && !row.status.Pending?
    ensures !HasPending(reviews[review := row], page)
  {
  }

  /** Canceling a review right after requesting it restores the page's status and leaves no pending review. */
  lemma CancelUndoesRequest(db: Tables, now: Time, later: Time, slug: string, reviewers: seq<Id>, group: int)
    requires Inv(db) && RequestResult(db, now, slug, reviewers, group).Done?
    ensures var r := CancelResult(RequestResult(db, now, slug, reviewers, group).tables, later, db.nextId, slug);
      && r.Done? && LiveAt(db.pages, slug).Some?
      && var id := LiveAt(db.pages, slug).value;
      && r.tables.pages == db.pages[id := db.pages[id].(updatedAt := later)] && r.tables.history == db.history && !HasPending(r.tables.reviews, id)
  {
    hide PageAt, Elements, Current, PathsOk, HistoryOk, ReviewsOk, SuggestionsOk, FeedbackOk, LinksOk, IdsOk, RequestResult, CancelResult, HasPending, Kept;
    var id := RequestRows(db, now, slug, reviewers, group);
    var requested := RequestResult(db, now, slug, reviewers, group).tables;
    RequestKeeps(db, now, slug, reviewers, group);
    CancelRows(requested, later, db.nextId, slug, id);
    var row := requested.reviews[db.nextId].(status := Canceled);
    NoneLeftPending(db.reviews, id, db.nextId, row);
    assert requested.reviews[db.nextId := row] == db.reviews[db.nextId := row];
    assert requested.pages[id := db.pages[id].(updatedAt := later)] == db.pages[id := db.pages[id].(updatedAt := later)];
  }

  // ---- suggestions

  /** Of the inline suggestions captured at one revision of a page, at most one is ever applied. */
  lemma OneSuggestionPerRevision(past: seq<Step>, a: Tables, future: seq<Step>, b: Tables, c: Id, d: Id)
    requires Moments(past, a, future, b) && c in a.suggestions && d in b.suggestions
    requires a.suggestions[c].applied && b.suggestions[d].applied
    requires a.suggestions[c].page == b.suggestions[d].page && a.suggestions[c].revision == b.suggestions[d].revision
    ensures c == d
  {
    hide Moments, PathsOk, HistoryOk, ReviewsOk, FeedbackOk, AppliedOnce, HistoryKept;
    MomentsLater(past, a, future, b);
    assert Captured(b.history, b.suggestions[d]);
    assert c in b.suggestions && b.suggestions[c].applied;
    assert AppliedOn(b.suggestions[c], b.suggestions[d]);
  }

  /** An applied suggestion is, in the history for good, the splice of its stored range. */
  lemma SuggestionIsSplice(past: seq<Step>, a: Tables, future: seq<Step>, b: Tables, c: Id)
    requires Moments(past, a, future, b) && c in a.suggestions && a.suggestions[c].applied && a.suggestions[c].page in b.pages
    ensures c in b.suggestions && b.suggestions[c] == a.suggestions[c]
    ensures Captured(b.history, a.suggestions[c]) && AppliedOnce(b.history, a.suggestions[c])
  {
    hide Moments, PathsOk, ReviewsOk, FeedbackOk, AppliedOnce, HistoryKept;
    MomentsLater(past, a, future, b);
    assert b.suggestions[c].applied;
  }

  /** A review's suggestions are applied in one batch: later, none is added to those applied. */
  lemma OneBatchPerReview(past: seq<Step>, a: Tables, future: seq<Step>, b: Tables, r: Id, f: Id, g: Id)
    requires Moments(past, a, future, b) && IsApplied(a.feedback, r, f) && IsApplied(b.feedback, r, g)
    ensures IsApplied(a.feedback, r, g)
    ensures r in b.reviews && b.reviews[r].status.Superseded? && AppliedAsBatch(b.history, b.reviews[r], b.feedback, r)
  {
    hide Moments, PathsOk, HistoryOk, ReviewsOk, SuggestionsOk, AppliedAsBatch;
    MomentsLater(past, a, future, b);
  }

  // ---- moves

  /** A path and its renamed form lead to the same page before and after a move. */
  lemma MovedResolves(pages: Pages, aliases: Aliases, to: map<Id, Slug>, now: Time, slug: string)
    requires PathsOk(pages, aliases) && CanMove(pages, aliases, to) && Resolve(pages, aliases, slug).Some?
    ensures Resolve(MovedPages(pages, to, now), MovedAliases(pages, aliases, to), Target(PathMap(pages, to), slug)) == Resolve(pages, aliases, slug)
  {
    hide CanMove, MovedAliases, PathsOk, PathsKept, PageAt, PathMap;
    var pages', aliases', m := MovedPages(pages, to, now), MovedAliases(pages, aliases, to), PathMap(pages, to);
    MovedPathsOk(pages, aliases, to, now);
    MovedPathsKept(pages, aliases, to, now);
    var id := Resolve(pages, aliases, slug).value;
    assert id in pages && Owns(pages, aliases, id, slug) && !pages[id].binned;
    PathMapAt(pages, aliases, to, slug);
    if slug in m {
      OwnedResolves(pages, aliases, PageAt(pages, slug).value, slug);
      assert id == PageAt(pages, slug).value;
      OwnedResolves(pages', aliases', id, m[slug]);
    } else {
      OwnsAfter(pages, aliases, pages', aliases', id, slug);
      OwnedResolves(pages', aliases', id, slug);
    }
  }

  lemma OwnsAfter(pages: Pages, aliases: Aliases, pages': Pages, aliases': Aliases, id: Id, slug: string)
    requires PathsKept(pages, aliases, pages', aliases') && id in pages && id in pages' && Owns(pages, aliases, id, slug)
    ensures Owns(pages', aliases', id, slug)
  {
  }

  /** The renamed paths are those of the moved pages. */
  lemma PathMapAt(pages: Pages, aliases: Aliases, to: map<Id, Slug>, slug: string)
    requires PathsOk(pages, aliases) && CanMove(pages, aliases, to)
    ensures slug in PathMap(pages, to) <==> PageAt(pages, slug).Some? && PageAt(pages, slug).value in to
    ensures slug in PathMap(pages, to) ==> Holds(pages, PageAt(pages, slug).value, slug) && PathMap(pages, to)[slug] == to[PageAt(pages, slug).value]
  {
    hide PageAt, Taken;
    if slug in OldPaths(pages, to) {
      var i :| i in to && i in pages && pages[i].slug == slug;
      AtPath(pages, aliases, i);
    }
    if PageAt(pages, slug).Some? {
      HoldsAt(pages, slug);
    }
  }

  /** Resolution reads paths and the bin only. */
  lemma {:induction false} ResolveAlike(pages: Pages, pages': Pages, aliases: Aliases, slug: string)
    requires PathsOk(pages, aliases) && pages'.Keys == pages.Keys
    requires forall i :: i in pages ==> pages'[i].slug == pages[i].slug && pages'[i].binned == pages[i].binned
    ensures Resolve(pages', aliases, slug) == Resolve(pages, aliases, slug)
  {
    hide PageAt;
    if PageAt(pages, slug).Some? {
      HoldsAt(pages, slug);
      AtPath(pages', aliases, PageAt(pages, slug).value);
    } else {
      NoneAt(pages, slug);
      NobodyAt(pages', slug);
      if slug in aliases {
        var i := aliases[slug];
        assert i in pages.Keys && i in pages'.Keys;
        assert pages'[i].binned == pages[i].binned;
      }
    }
  }

  lemma NobodyAt(pages: Pages, slug: string)
    requires forall i :: i in pages ==> pages[i].slug != slug
    ensures PageAt(pages, slug).None?
  {
  }

  /** The page rows after link rewriting. */
  lemma EditedRows(pages: Pages, m: map<string, string>, now: Time)
    ensures var pages' := pages + EditedPages(pages, m, now);
      && pages'.Keys == pages.Keys
      && forall i :: i in pages ==>
        && pages'[i].slug == pages[i].slug && pages'[i].binned == pages[i].binned
        && pages'[i].markdown == if !pages[i].binned then Substitute(pages[i].markdown, m) else pages[i].markdown
  {
    hide Substitute;
  }

  /** The page rows after a move and its link rewriting. */
  lemma MoveAllPages(db: Tables, to: map<Id, Slug>, updateLinks: bool, now: Time)
    ensures var pages', moved, m := MoveAll(db, to, updateLinks, now).pages, MovedPages(db.pages, to, now), PathMap(db.pages, to);
      && pages'.Keys == moved.Keys == db.pages.Keys
      && forall i :: i in moved ==>
        && pages'[i].slug == moved[i].slug && pages'[i].binned == moved[i].binned == db.pages[i].binned
        && pages'[i].markdown == if updateLinks && !db.pages[i].binned then Substitute(db.pages[i].markdown, m) else db.pages[i].markdown
  {
    hide PathMap, MovedAliases, Substitute, EditedPages, Append;
    EditedRows(MovedPages(db.pages, to, now), PathMap(db.pages, to), now);
  }

  lemma MoveAllAliases(db: Tables, to: map<Id, Slug>, updateLinks: bool, now: Time)
    ensures MoveAll(db, to, updateLinks, now).aliases == MovedAliases(db.pages, db.aliases, to)
    ensures MoveAll(db, to, updateLinks, now).links == Retargeted(db.links, PathMap(db.pages, to))
  {
    hide PathMap, MovedAliases, EditedPages, MovedPages;
  }

  /** What a successful move renames, and that it was free to. */
  lemma MoveDone(db: Tables, now: Time, source: string, target: Path, children: bool, updateLinks: bool) returns (to: map<Id, Slug>)
    requires MoveResult(db, now, source, target, children, updateLinks).Done?
    ensures CanMove(db.pages, db.aliases, to) && !LinkClash(db.links, PathMap(db.pages, to))
    ensures MoveResult(db, now, source, target, children, updateLinks).tables == MoveAll(db, to, updateLinks, now)
    ensures target != "" && to == Destinations(db.pages, SourcePath(source), target, children)
  {
    hide CanMove, MoveAll, SomeTaken, Injective, Destinations, SourcePath, PathMap, LinkClash, IsBelow;
    to := Destinations(db.pages, SourcePath(source), target, children);
    MoveChecks(db, SourcePath(source), target, children);
  }

  /** Every recorded link that led to a page leads to that page after a move, under its new target. */
  lemma RecordedLinksFollow(db: Tables, now: Time, source: string, target: Path, children: bool, updateLinks: bool, l: LinkRow)
    requires Inv(db) && MoveResult(db, now, source, target, children, updateLinks).Done? && l in db.links
    requires Resolve(db.pages, db.aliases, l.target).Some?
    ensures var db' := MoveResult(db, now, source, target, children, updateLinks).tables;
      exists l' :: l' in db'.links && l'.source == l.source && Resolve(db'.pages, db'.aliases, l'.target) == Resolve(db.pages, db.aliases, l.target)
  {
    hide MoveResult, MoveAll, CanMove, LinkClash, PathMap, MovedAliases, MovedPages, Resolve, HistoryOk, ReviewsOk, SuggestionsOk, FeedbackOk, IdsOk, PathsOk;
    var to := MoveDone(db, now, source, target, children, updateLinks);
    var db' := MoveAll(db, to, updateLinks, now);
    MoveAllAliases(db, to, updateLinks, now);
    ResolvesAfterMove(db, to, updateLinks, now, l.target);
    assert LinkRow(l.source, Target(PathMap(db.pages, to), l.target)) in db'.links;
  }

  lemma ResolvesAfterMove(db: Tables, to: map<Id, Slug>, updateLinks: bool, now: Time, slug: string)
    requires PathsOk(db.pages, db.aliases) && CanMove(db.pages, db.aliases, to) && Resolve(db.pages, db.aliases, slug).Some?
    ensures var db' := MoveAll(db, to, updateLinks, now);
      Resolve(db'.pages, db'.aliases, Target(PathMap(db.pages, to), slug)) == Resolve(db.pages, db.aliases, slug)
  {
    hide MoveAll, CanMove, PathMap, MovedAliases, MovedPages, Resolve, PathsOk, Substitute, Target;
    var db' := MoveAll(db, to, updateLinks, now);
    MoveAllAliases(db, to, updateLinks, now);
    MoveAllPages(db, to, updateLinks, now);
    MovedPathsOk(db.pages, db.aliases, to, now);
    MovedResolves(db.pages, db.aliases, to, now, slug);
    ResolveAlike(MovedPages(db.pages, to, now), db'.pages, db'.aliases, Target(PathMap(db.pages, to), slug));
  }

  /** No two link rows become one. */
  lemma LinkRowsStayApart(db: Tables, to: map<Id, Slug>, l: LinkRow, k: LinkRow)
    requires PathsOk(db.pages, db.aliases) && CanMove(db.pages, db.aliases, to) && !LinkClash(db.links, PathMap(db.pages, to))
    requires l in db.links && k in db.links && l != k
    ensures var m := PathMap(db.pages, to); LinkRow(l.source, Target(m, l.target)) != LinkRow(k.source, Target(m, k.target))
  {
    hide PathMap, PageAt, Taken, PathsOk;
    PathMapAt(db.pages, db.aliases, to, l.target);
    PathMapAt(db.pages, db.aliases, to, k.target);
  }

  /** After a move that updates links, the text of a page has the same links, and each leads where it led. */
  lemma WrittenLinksFollow(db: Tables, now: Time, source: string, target: Path, children: bool, page: Id, k: nat)
    requires Inv(db) && MoveResult(db, now, source, target, children, true).Done? && page in db.pages && !db.pages[page].binned
    requires k < |Links(db.pages[page].markdown)|
    ensures var db' := MoveResult(db, now, source, target, children, true).tables;
      && page in db'.pages && !db'.pages[page].binned && |Links(db'.pages[page].markdown)| == |Links(db.pages[page].markdown)|
      && var before, after := Links(db.pages[page].markdown)[k], Links(db'.pages[page].markdown)[k];
      && after.ending == before.ending
      && (Resolve(db.pages, db.aliases, before.target).Some? ==>
            Resolve(db'.pages, db'.aliases, after.target) == Resolve(db.pages, db.aliases, before.target))
  {
    hide MoveResult, MoveAll, CanMove, LinkClash, PathMap, MovedAliases, MovedPages, Resolve, HistoryOk, ReviewsOk, SuggestionsOk, FeedbackOk, IdsOk, PathsOk, Links, Retarget, TargetText;
    var to := MoveDone(db, now, source, target, children, true);
    var m := PathMap(db.pages, to);
    MoveAllPages(db, to, true, now);
    PathMapKeepsTargets(db, to);
    LinksRenamed(db.pages[page].markdown, Renamed(m));
    var before := Links(db.pages[page].markdown)[k];
    if Resolve(db.pages, db.aliases, before.target).Some? {
      ResolvesAfterMove(db, to, true, now, before.target);
    }
  }

  /** One page of a bulk move is a move. */
  lemma BulkStep(db: Tables, now: Time, slug: string, target: Path) returns (source: string, destination: Path)
    requires Inv(db) && BulkMoveOne(db, now, slug, target).Done?
    ensures BulkMoveOne(db, now, slug, target) == MoveResult(db, now, source, destination, false, true)
    ensures Inv(BulkMoveOne(db, now, slug, target).tables)
  {
    hide Inv, MoveResult, Kept, SourcePath, IsSlug;
    source := SourcePath(slug);
    destination := target + "/" + Base(source);
    MoveKeeps(db, now, source, destination, false, true);
  }

  /** The same for a bulk move: every recorded link still leads to its page. */
  lemma {:induction false} RecordedLinksFollowBulk(db: Tables, now: Time, slugs: seq<string>, target: Path, l: LinkRow)
    requires Inv(db) && BulkMoveFrom(db, now, slugs, target).Done? && l in db.links
    requires Resolve(db.pages, db.aliases, l.target).Some?
    ensures var db' := BulkMoveFrom(db, now, slugs, target).tables;
      exists l' :: l' in db'.links && l'.source == l.source && Resolve(db'.pages, db'.aliases, l'.target) == Resolve(db.pages, db.aliases, l.target)
    decreases |slugs|
  {
    hide Inv, BulkMoveOne, MoveResult, Resolve;
    if slugs != [] {
      var next := BulkMoveOne(db, now, slugs[0], target).tables;
      var source, destination := BulkStep(db, now, slugs[0], target);
      RecordedLinksFollow(db, now, source, destination, false, true, l);
      var l1 :| l1 in next.links && l1.source == l.source && Resolve(next.pages, next.aliases, l1.target) == Resolve(db.pages, db.aliases, l.target);
      RecordedLinksFollowBulk(next, now, slugs[1..], target, l1);
    }
  }

  /** And so does every direct link in a page's text. */
  lemma {:induction false} WrittenLinksFollowBulk(db: Tables, now: Time, slugs: seq<string>, target: Path, page: Id, k: nat)
    requires Inv(db) && BulkMoveFrom(db, now, slugs, target).Done? && page in db.pages && !db.pages[page].binned
    requires k < |Links(db.pages[page].markdown)|
    ensures var db' := BulkMoveFrom(db, now, slugs, target).tables;
      && page in db'.pages && !db'.pages[page].binned && |Links(db'.pages[page].markdown)| == |Links(db.pages[page].markdown)|
      && var before, after := Links(db.pages[page].markdown)[k], Links(db'.pages[page].markdown)[k];
      && after.ending == before.ending
      && (Resolve(db.pages, db.aliases, before.target).Some? ==>
            Resolve(db'.pages, db'.aliases, after.target) == Resolve(db.pages, db.aliases, before.target))
    decreases |slugs|
  {
    hide Inv, BulkMoveOne, MoveResult, Resolve, Links;
    if slugs != [] {
      var next := BulkMoveOne(db, now, slugs[0], target).tables;
      var source, destination := BulkStep(db, now, slugs[0], target);
      WrittenLinksFollow(db, now, source, destination, false, page, k);
      WrittenLinksFollowBulk(next, now, slugs[1..], target, page, k);
    }
  }

  lemma PathMapKeepsTargets(db: Tables, to: map<Id, Slug>)
    requires PathsOk(db.pages, db.aliases) && CanMove(db.pages, db.aliases, to)
    ensures KeepsTargets(Renamed(PathMap(db.pages, to)))
  {
    hide PathMap, TargetText, PageAt, CanMove, PathsOk;
    var m := PathMap(db.pages, to);
    forall t, e: Ending | TargetText(t)
      ensures TargetText(Renamed(m)(t, e))
    {
      PathMapAt(db.pages, db.aliases, to, t);
      if t in m {
        SlugIsTarget(to[PageAt(db.pages, t).value]);
      }
    }
  }

  /**
   Rewriting links opens exactly one revision on each page whose text changes, leaves every review
   alone, and leaves the artifact that was rendered from the text before.
   */
  lemma MoveRevises(db: Tables, to: map<Id, Slug>, now: Time, id: Id)
    requires Inv(db) && id in db.pages
    ensures var db' := MoveAll(db, to, true, now);
      && id in db'.history && id in db.history && db'.reviews == db.reviews && id in db'.pages && db'.pages[id].render == db.pages[id].render
      && db'.history[id] == if db'.pages[id].markdown == db.pages[id].markdown then db.history[id]
                            else db.history[id] + [Revision(|db.history[id]| + 1, db'.pages[id].markdown)]
  {
    hide PathMap, MovedAliases, Substitute, Inv, Current;
    CurrentIs(db, id);
  }

  /** A tree move takes the page and its descendants, and, for paths without an underscore, nothing else. */
  lemma TreeMoveSelects(page: Page, source: Slug)
    requires '_' !in source
    ensures IsSelected(page, source, true) <==> !page.binned && (page.slug == source || IsBelow(page.slug, source))
  {
    hide Like, IsBelow;
    SelectsOnlyBelow(source);
    if IsBelow(page.slug, source) {
      BelowIsSelected(page.slug, source);
    }
  }
}
