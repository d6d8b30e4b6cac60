/** Every page transaction keeps the invariants, and what that means for whole runs. */
module PageRuns {
  import opened Options
  import opened TextScan
  import opened WikiLinks
  import opened SqlLike
  import opened ReviewEdits
  import opened PageTables
  import opened PageCommands
  import opened PageInvariant

  // ---- saving

  lemma InsertKeeps(db: Tables, input: SaveInput, now: Time)
    requires Inv(db) && InsertPage(db, input, now).Done?
    ensures Keeps(db, InsertPage(db, input, now).tables, now)
  {
    hide Inv, Keeps;
    var created := Created(db, NewPage(input, now));
    CreatedKeeps(db, NewPage(input, now), now);
    KeepsInv(db, created, now);
    NewLinksOk(created, db.nextId, Elements(input.links));
    LinksKept(db, created, SetLinks(created, db.nextId, Elements(input.links)).links, now);
  }

  /** Replacing link rows at the end of a transaction. */
  lemma LinksKept(db: Tables, done: Tables, links: set<LinkRow>, now: Time)
    requires Inv(db) && Keeps(db, done, now) && LinksOk(done.pages, links)
    ensures Keeps(db, done.(links := links), now)
  {
    hide Inv, Kept, StampedAt;
    SetLinksKeeps(done, links, now);
    KeepsTrans(db, done, done.(links := links), now);
  }

  lemma NewLinksOk(db: Tables, page: Id, targets: set<string>)
    requires Inv(db) && page in db.pages
    ensures LinksOk(db.pages, SetLinks(db, page, targets).links)
  {
    hide PathsOk, HistoryOk, ReviewsOk, SuggestionsOk, FeedbackOk, IdsOk;
  }

  lemma OldLinksOk(db: Tables)
    requires Inv(db)
    ensures LinksOk(db.pages, db.links)
  {
  }

  lemma RenameKeeps(db: Tables, id: Id, slug: Slug, now: Time)
    requires Inv(db) && id in db.pages && Rename(db, id, slug, now).Done?
    ensures var renamed := Rename(db, id, slug, now).tables;
      && Keeps(db, renamed, now) && id in renamed.pages && renamed.pages[id].slug == slug
      && (db.pages[id].slug == slug ==> renamed == db)
  {
    hide Inv, Keeps, Taken, MovedAliases;
    if db.pages[id].slug == slug {
      KeepsSelf(db, now);
    } else {
      var to := map[id := slug];
      assert CanMove(db.pages, db.aliases, to);
      OldLinksOk(db);
      MovedKeeps(db, to, now, db.links);
      assert Moved(db, to, now).(links := db.links) == Moved(db, to, now);
    }
  }

  lemma WriteKeeps(db: Tables, before: Page, id: Id, input: SaveInput, now: Time)
    requires Inv(db) && id in db.pages && db.pages[id].slug == input.slug
    requires before.slug == input.slug ==> before == db.pages[id]
    ensures Keeps(db, Write(db, before, id, input, now), now)
  {
    hide Inv, Keeps;
    var linked := SetLinks(db, id, Elements(input.links));
    var after := EditedPage(before, input, now);
    NewLinksOk(db, id, Elements(input.links));
    SetLinksKeeps(db, linked.links, now);
    KeepsInv(db, linked, now);
    if SameContent(before, after) {
      PutKeeps(linked, id, after.(updatedAt := before.updatedAt), now);
      KeepsTrans(db, linked, Put(linked, id, after.(updatedAt := before.updatedAt)), now);
    } else {
      ReviseAndSupersede(linked, map[id := after], id, now);
      KeepsTrans(db, linked, Supersede(Revised(linked, map[id := after]), id), now);
    }
  }

  lemma KeepsInv(db: Tables, db': Tables, now: Time)
    requires Keeps(db, db', now)
    ensures Inv(db')
  {
  }

  lemma ReviseAndSupersede(db: Tables, rows: Pages, id: Id, now: Time)
    requires Inv(db) && rows.Keys <= db.pages.Keys
    requires forall i :: i in rows ==> rows[i].slug == db.pages[i].slug && rows[i].updatedAt == now
    ensures Keeps(db, Supersede(Revised(db, rows), id), now)
  {
    hide Inv, Keeps;
    RevisedKeeps(db, rows, now);
    KeepsInv(db, Revised(db, rows), now);
    SupersedeKeeps(Revised(db, rows), id, now);
    KeepsTrans(db, Revised(db, rows), Supersede(Revised(db, rows), id), now);
  }

  lemma SaveKeeps(db: Tables, now: Time, input: SaveInput)
    requires Inv(db) && SaveResult(db, now, input).Done?
    ensures Keeps(db, SaveResult(db, now, input).tables, now)
  {
    hide Inv, Keeps, InsertPage, Rename, Write;
    match PageAt(db.pages, LookupSlug(input))
    case None =>
      InsertKeeps(db, input, now);
    case Some(id) =>
      RenameKeeps(db, id, input.slug, now);
      var renamed := Rename(db, id, input.slug, now).tables;
      KeepsInv(db, renamed, now);
      WriteKeeps(renamed, db.pages[id], id, input, now);
      KeepsTrans(db, renamed, Write(renamed, db.pages[id], id, input, now), now);
  }

  lemma SaveIfUnchangedKeeps(db: Tables, now: Time, expected: Option<Time>, input: SaveInput)
    requires Inv(db) && SaveIfUnchangedResult(db, now, expected, input).Done?
    ensures Keeps(db, SaveIfUnchangedResult(db, now, expected, input).tables, now)
  {
    hide Inv, Keeps, SaveResult;
    SaveKeeps(db, now, input);
  }

  lemma {:induction false} ImportKeeps(db: Tables, now: Time, inputs: seq<SaveInput>)
    requires Inv(db) && ImportResult(db, now, inputs).Done?
    ensures Keeps(db, ImportResult(db, now, inputs).tables, now)
    decreases |inputs|
  {
    hide Inv, Keeps, SaveResult;
    if inputs == [] {
      KeepsSelf(db, now);
    } else {
      var next := SaveResult(db, now, inputs[0]).tables;
      SaveKeeps(db, now, inputs[0]);
      KeepsInv(db, next, now);
      ImportKeeps(next, now, inputs[1..]);
      KeepsTrans(db, next, ImportResult(next, now, inputs[1..]).tables, now);
    }
  }

  // ---- moving

  /** Destinations differ from where the pages are. */
  lemma DestinationMoves(page: Page, source: string, target: Slug, children: bool)
    requires Movable(source, target, children) && IsSelected(page, source, children)
    ensures Destination(page.slug, source, target) != page.slug
  {
    if source <= page.slug {
      assert Destination(page.slug, source, target)[..|target|] == target;
      assert page.slug[..|source|] == source;
    }
  }

  lemma MoveAllKeeps(db: Tables, to: map<Id, Slug>, updateLinks: bool, now: Time)
    requires Inv(db) && CanMove(db.pages, db.aliases, to)
    ensures Keeps(db, MoveAll(db, to, updateLinks, now), now)
  {
    hide Inv, Keeps, CanMove, MovedAliases, PathMap, IsEdited;
    var m := PathMap(db.pages, to);
    var moved := Moved(db, to, now).(links := Retargeted(db.links, m));
    OldLinksOk(db);
    MovedKeeps(db, to, now, moved.links);
    KeepsInv(db, moved, now);
    if updateLinks {
      RevisedKeeps(moved, EditedPages(moved.pages, m, now), now);
      KeepsTrans(db, moved, Revised(moved, EditedPages(moved.pages, m, now)), now);
    }
  }

  /** What a successful move selected and checked. */
  lemma MoveChecks(db: Tables, source: string, target: Slug, children: bool)
    requires Movable(source, target, children)
    requires var to := Destinations(db.pages, source, target, children); !SomeTaken(db.pages, db.aliases, to) && Injective(to)
    ensures CanMove(db.pages, db.aliases, Destinations(db.pages, source, target, children))
  {
    hide Taken, Movable, IsSelected;
    var to := Destinations(db.pages, source, target, children);
    forall i | i in to
      ensures !Taken(db.pages, db.aliases, i, to[i]) && to[i] != db.pages[i].slug
    {
      DestinationMoves(db.pages[i], source, target, children);
    }
  }

  lemma MoveKeeps(db: Tables, now: Time, source: string, target: Path, children: bool, updateLinks: bool)
    requires Inv(db) && MoveResult(db, now, source, target, children, updateLinks).Done?
    ensures Keeps(db, MoveResult(db, now, source, target, children, updateLinks).tables, now)
  {
    hide Inv, Keeps, CanMove, MoveAll, SomeTaken, Injective, Destinations, SourcePath, IsBelow;
    var path := SourcePath(source);
    MoveChecks(db, path, target, children);
    MoveAllKeeps(db, Destinations(db.pages, path, target, children), updateLinks, now);
  }

  lemma {:induction false} BulkMoveKeeps(db: Tables, now: Time, slugs: seq<string>, target: Path)
    requires Inv(db) && BulkMoveFrom(db, now, slugs, target).Done?
    ensures Keeps(db, BulkMoveFrom(db, now, slugs, target).tables, now)
    decreases |slugs|
  {
    hide Inv, Keeps, MoveResult;
    if slugs == [] {
      KeepsSelf(db, now);
    } else {
      var source := SourcePath(slugs[0]);
      var destination := target + "/" + Base(source);
      MoveKeeps(db, now, source, destination, false, true);
      var next := BulkMoveOne(db, now, slugs[0], target).tables;
      KeepsInv(db, next, now);
      BulkMoveKeeps(next, now, slugs[1..], target);
      KeepsTrans(db, next, BulkMoveFrom(next, now, slugs[1..], target).tables, now);
    }
  }

  // ---- reviews

  lemma RequestKeeps(db: Tables, now: Time, slug: string, reviewers: seq<Id>, group: int)
    requires Inv(db) && RequestResult(db, now, slug, reviewers, group).Done?
    ensures Keeps(db, RequestResult(db, now, slug, reviewers, group).tables, now)
  {
    hide Inv, Keeps, HasPending, Elements, Current;
    var id := LiveAt(db.pages, slug).value;
    var page := db.pages[id];
    CurrentIs(db, id);
    var review := Review(id, Current(db.history, id), Pending, page.status, Elements(reviewers), group);
    var started := Numbered(PutReview(db, db.nextId, review));
    OpenReviewKeeps(db, review, now);
    KeepsInv(db, started, now);
    PutKeeps(started, id, page.(status := Draft, updatedAt := now), now);
    KeepsTrans(db, started, Put(started, id, page.(status := Draft, updatedAt := now)), now);
  }

  lemma UpdateKeeps(db: Tables, now: Time, review: Id, slug: string, reviewers: seq<Id>, group: int)
    requires Inv(db) && UpdateResult(db, review, slug, reviewers, group).Done?
    ensures Keeps(db, UpdateResult(db, review, slug, reviewers, group).tables, now)
  {
    hide Inv, Keeps, Elements;
    PutReviewKeeps(db, review, db.reviews[review].(reviewers := Elements(reviewers), group := group), now);
  }

  /** A review's row and its page's row change together. */
  lemma DecisionKeeps(db: Tables, id: Id, row: Review, page: Page, now: Time)
    requires Inv(db) && id in db.reviews && ReviewKept(db.history, db.reviews[id], row) && !row.status.Pending?
    requires row.page in db.pages && page.slug == db.pages[row.page].slug && page.markdown == db.pages[row.page].markdown
    requires page.updatedAt == now
    ensures Keeps(db, Put(PutReview(db, id, row), row.page, page), now)
  {
    hide Inv, Keeps, ReviewKept;
    PutReviewKeeps(db, id, row, now);
    KeepsInv(db, PutReview(db, id, row), now);
    PutKeeps(PutReview(db, id, row), row.page, page, now);
    KeepsTrans(db, PutReview(db, id, row), Put(PutReview(db, id, row), row.page, page), now);
  }

  lemma CancelKeeps(db: Tables, now: Time, review: Id, slug: string)
    requires Inv(db) && CancelResult(db, now, review, slug).Done?
    ensures Keeps(db, CancelResult(db, now, review, slug).tables, now)
  {
    hide Inv, Keeps, Current;
    var id := ReviewedPage(db, review, slug).value;
    var row := db.reviews[review].(status := Canceled);
    PutReviewKeeps(db, review, row, now);
    DecisionKeeps(db, review, row, db.pages[id].(status := row.previous, updatedAt := now), now);
  }

  lemma DecideKeeps(db: Tables, now: Time, review: Id, slug: string, user: Id, groups: set<int>, admin: bool, decision: Decision)
    requires Inv(db) && DecideResult(db, now, review, slug, user, groups, admin, decision).Done?
    ensures Keeps(db, DecideResult(db, now, review, slug, user, groups, admin, decision).tables, now)
  {
    hide Inv, Keeps, Current, Assigned;
    var id := ReviewedPage(db, review, slug).value;
    CurrentIs(db, id);
    match decision
    case RequestChanges =>
      PutReviewKeeps(db, review, db.reviews[review].(status := ChangesRequested), now);
    case Approve =>
      DecisionKeeps(db, review, db.reviews[review].(status := Approved), db.pages[id].(status := Verified, reviewedAt := Some(now), updatedAt := now), now);
  }

  // ---- suggestions

  lemma SuggestKeeps(db: Tables, now: Time, slug: string, anchor: string, s: Suggestion, expected: string)
    requires Inv(db) && SuggestResult(db, slug, anchor, s, expected).Done?
    ensures Keeps(db, SuggestResult(db, slug, anchor, s, expected).tables, now)
  {
    hide Inv, Keeps, Current;
    var id := LiveAt(db.pages, slug).value;
    CurrentIs(db, id);
    AddSuggestionKeeps(db, s.(page := id, applied := false), now);
  }

  /** The page update of an applied suggestion: one more revision, with the new Markdown. */
  lemma UpdatedKeeps(db: Tables, now: Time, id: Id, markdown: string, render: string)
    requires Inv(db) && id in db.pages
    ensures var db' := Updated(db, now, id, markdown, render);
      && Keeps(db, db', now) && id in db'.pages && id in db'.history && id in db.history
      && db'.history[id] == db.history[id] + [Revision(|db.history[id]| + 1, markdown)]
      && db.history[id] != [] && db.history[id][|db.history[id]| - 1].markdown == db.pages[id].markdown
  {
    hide Inv, Keeps;
    ReviseAndSupersede(db, map[id := db.pages[id].(markdown := markdown, updatedAt := now, render := render)], id, now);
    CurrentIs(db, id);
  }

  /** Before its page is updated, no suggestion captured at the current revision has been applied. */
  lemma NotYetApplied(db: Tables, id: Id)
    requires Inv(db) && id in db.history
    ensures forall d :: d in db.suggestions && db.suggestions[d].applied && db.suggestions[d].page == id ==> db.suggestions[d].revision < |db.history[id]|
  {
    forall d | d in db.suggestions && db.suggestions[d].applied && db.suggestions[d].page == id
      ensures db.suggestions[d].revision < |db.history[id]|
    {
      assert AppliedOnce(db.history, db.suggestions[d]);
    }
  }

  lemma ApplySuggestionKeeps(db: Tables, now: Time, slug: string, comment: Id, markdown: string, render: string, links: seq<string>)
    requires Inv(db) && ApplySuggestionResult(db, now, slug, comment, markdown, render, links).Done?
    ensures Keeps(db, ApplySuggestionResult(db, now, slug, comment, markdown, render, links).tables, now)
  {
    hide Inv, Keeps, Current;
    var id, s := LiveAt(db.pages, slug).value, db.suggestions[comment];
    var updated := Updated(db, now, id, markdown, render);
    CurrentIs(db, id);
    UpdatedKeeps(db, now, id, markdown, render);
    NotYetApplied(db, id);
    KeepsInv(db, updated, now);
    assert updated.suggestions == db.suggestions;
    MarkSuggestionKeeps(updated, comment, now);
    var marked := PutSuggestion(updated, comment, s.(applied := true));
    KeepsTrans(db, updated, marked, now);
    KeepsInv(db, marked, now);
    NewLinksOk(marked, id, Elements(links));
    LinksKept(db, marked, SetLinks(marked, id, Elements(links)).links, now);
  }

  // ---- review suggestions

  lemma CommentKeeps(db: Tables, now: Time, review: Id, slug: string, edit: Edit, body: string, isSuggestion: bool)
    requires Inv(db) && CommentResult(db, review, slug, edit, body, isSuggestion).Done?
    ensures Keeps(db, CommentResult(db, review, slug, edit, body, isSuggestion).tables, now)
  {
    hide Inv, Keeps, Current, WellFormed;
    AddFeedbackKeeps(db, Feedback(review, isSuggestion, edit, false), now);
  }

  /** A pending review has no applied suggestions. */
  lemma PendingUnapplied(db: Tables, review: Id)
    requires Inv(db) && review in db.reviews && db.reviews[review].status.Pending?
    ensures forall f :: !IsApplied(db.feedback, review, f)
  {
  }

  lemma ApplyFeedbackKeeps(db: Tables, now: Time, review: Id, slug: string, revision: nat, ids: seq<int>, all: bool, markdown: string, render: string, links: seq<string>)
    requires Inv(db) && ApplyFeedbackResult(db, now, review, slug, revision, ids, all, markdown, render, links).Done?
    ensures Keeps(db, ApplyFeedbackResult(db, now, review, slug, revision, ids, all, markdown, render, links).tables, now)
  {
    hide Inv, Keeps, Current, Outcome, Revised;
    var id := ReviewedPage(db, review, slug).value;
    var open := OpenFeedback(db.feedback, review, ids, all);
    var updated := Updated(db, now, id, markdown, render);
    CurrentIs(db, id);
    UpdatedKeeps(db, now, id, markdown, render);
    PendingUnapplied(db, review);
    KeepsInv(db, updated, now);
    UpdatedRest(db, now, id, markdown, render);
    assert IsSelection(updated, review, ids, open);
    MarkFeedbackKeeps(updated, review, ids, open, now);
    var marked := MarkFeedback(updated, review, open);
    KeepsTrans(db, updated, marked, now);
    KeepsInv(db, marked, now);
    NewLinksOk(marked, id, Elements(links));
    LinksKept(db, marked, SetLinks(marked, id, Elements(links)).links, now);
  }

  lemma UpdatedRest(db: Tables, now: Time, id: Id, markdown: string, render: string)
    requires id in db.pages
    ensures var db' := Updated(db, now, id, markdown, render);
      db'.suggestions == db.suggestions && db'.feedback == db.feedback && db'.links == db.links && db'.reviews == Closed(db.reviews, id)
  {
  }

  // ---- the bin and artifacts

  lemma BinKeeps(db: Tables, now: Time, slug: string)
    requires Inv(db) && BinResult(db, slug).Done?
    ensures Keeps(db, BinResult(db, slug).tables, now)
  {
    hide Inv, Keeps;
    var id := LiveAt(db.pages, slug).value;
    PutKeeps(db, id, db.pages[id].(binned := true), now);
  }

  lemma RestoreKeeps(db: Tables, now: Time, slug: string)
    requires Inv(db) && RestoreResult(db, slug).Done?
    ensures Keeps(db, RestoreResult(db, slug).tables, now)
  {
    hide Inv, Keeps;
    var id := BinnedAt(db.pages, slug).value;
    PutKeeps(db, id, db.pages[id].(binned := false), now);
  }

  lemma PurgeKeeps(db: Tables, now: Time, slug: string)
    requires Inv(db) && PurgeResult(db, slug).Done?
    ensures Keeps(db, PurgeResult(db, slug).tables, now)
  {
    hide Inv, Keeps;
    PurgedKeeps(db, BinnedAt(db.pages, slug).value, now);
  }

  lemma SaveRenderKeeps(db: Tables, now: Time, page: Id, expected: Time, render: string)
    requires Inv(db)
    ensures Keeps(db, SaveRenderResult(db, page, expected, render).tables, now)
  {
    hide Inv, Keeps;
    KeepsSelf(db, now);
    if page in db.pages {
      PutKeeps(db, page, db.pages[page].(render := render), now);
    }
  }

  // ---- every transaction

  lemma AttemptKeeps(db: Tables, now: Time, c: Command)
    requires Inv(db) && Attempt(db, now, c).Done?
    ensures Keeps(db, Attempt(db, now, c).tables, now)
  {
    hide Inv, Keeps, SaveResult, SaveIfUnchangedResult, ImportResult, MoveResult, BulkMoveFrom, BinResult, RestoreResult, PurgeResult, RequestResult, UpdateResult,
      CancelResult, DecideResult, SuggestResult, ApplySuggestionResult, CommentResult, ApplyFeedbackResult, SaveRenderResult;
    match c
    case Save(input) => SaveKeeps(db, now, input);
    case SaveIfUnchanged(expected, input) => SaveIfUnchangedKeeps(db, now, expected, input);
    case Import(inputs) => ImportKeeps(db, now, inputs);
    case Move(source, target, children, updateLinks) => MoveKeeps(db, now, source, target, children, updateLinks);
    case BulkMove(slugs, target) => BulkMoveKeeps(db, now, slugs, target);
    case Bin(slug) => BinKeeps(db, now, slug);
    case Restore(slug) => RestoreKeeps(db, now, slug);
    case Purge(slug) => PurgeKeeps(db, now, slug);
    case Request(slug, reviewers, group) => RequestKeeps(db, now, slug, reviewers, group);
    case Update(review, slug, reviewers, group) => UpdateKeeps(db, now, review, slug, reviewers, group);
    case Cancel(review, slug) => CancelKeeps(db, now, review, slug);
    case Decide(review, slug, user, groups, admin, decision) => DecideKeeps(db, now, review, slug, user, groups, admin, decision);
    case Suggest(slug, anchor, revision, start, end, original, replacement, expected) =>
      SuggestKeeps(db, now, slug, anchor, Suggestion(0, revision, start, end, original, replacement, false), expected);
    case ApplySuggestion(slug, comment, markdown, render, links) => ApplySuggestionKeeps(db, now, slug, comment, markdown, render, links);
    case Comment(review, slug, edit, body, isSuggestion) => CommentKeeps(db, now, review, slug, edit, body, isSuggestion);
    case ApplyFeedback(review, slug, revision, ids, all, markdown, render, links) =>
      ApplyFeedbackKeeps(db, now, review, slug, revision, ids, all, markdown, render, links);
    case SaveRender(page, expected, render) => SaveRenderKeeps(db, now, page, expected, render);
  }

  /** From one moment of a run to a later one. */
  ghost predicate Later(a: Tables, b: Tables) {
    Inv(a) && Inv(b) && TokensOk(a) && TokensOk(b) && Kept(a, b) && Stamped(a, b)
  }

  lemma Committed(db: Tables, done: Tables, now: Time)
    requires Inv(db) && TokensOk(db) && now !in db.issued && Keeps(db, done, now)
    ensures Later(db, Issue(done, now))
  {
    hide PathsOk, HistoryOk, ReviewsOk, SuggestionsOk, FeedbackOk, PathsKept, HistoryKept, ReviewsKept, SuggestionsKept, FeedbackKept;
    var db' := Issue(done, now);
    forall i | i in db'.pages
      ensures db'.pages[i].updatedAt in db'.issued
      ensures db'.pages[i].updatedAt !in db.issued || (i in db.pages && SameVersion(db.pages[i], db'.pages[i]))
    {
      assert done.pages[i].updatedAt == now || (i in db.pages && SameVersion(db.pages[i], done.pages[i]));
    }
  }

  lemma LaterSelf(db: Tables)
    requires Inv(db) && TokensOk(db)
    ensures Later(db, db)
  {
    KeepsSelf(db, 0);
  }

  lemma AfterIsLater(db: Tables, now: Time, c: Command)
    requires Inv(db) && TokensOk(db) && now !in db.issued
    ensures Later(db, After(db, now, c))
  {
    hide Inv, TokensOk, Keeps, Attempt, Later;
    if Attempt(db, now, c).Done? {
      AttemptKeeps(db, now, c);
      Committed(db, Attempt(db, now, c).tables, now);
    } else {
      LaterSelf(db);
    }
  }

  lemma LaterTrans(a: Tables, b: Tables, c: Tables)
    requires Later(a, b) && Later(b, c)
    ensures Later(a, c)
  {
    hide Inv, TokensOk, Kept, Stamped;
    KeptTrans(a, b, c);
    StampedTrans(a, b, c);
  }

  /** Every run keeps the invariants, and its end is later than its start. */
  lemma {:induction false} RunIsLater(db: Tables, steps: seq<Step>)
    requires Inv(db) && TokensOk(db) && Fresh(db, steps)
    ensures Later(db, Run(db, steps))
    decreases |steps|
  {
    hide Inv, TokensOk, Later, After;
    if steps == [] {
      LaterSelf(db);
    } else {
      var next := After(db, steps[0].now, steps[0].command);
      AfterIsLater(db, steps[0].now, steps[0].command);
      LaterInv(db, next);
      RunIsLater(next, steps[1..]);
      LaterTrans(db, next, Run(next, steps[1..]));
    }
  }

  lemma LaterInv(a: Tables, b: Tables)
    requires Later(a, b)
    ensures Inv(a) && TokensOk(a) && Inv(b) && TokensOk(b)
  {
  }

  /** Two moments of one run that starts with empty tables. */
  ghost predicate Moments(past: seq<Step>, a: Tables, future: seq<Step>, b: Tables) {
    a == Run(Empty(), past) && b == Run(a, future) && Fresh(Empty(), past) && Fresh(a, future)
  }

  lemma MomentsLater(past: seq<Step>, a: Tables, future: seq<Step>, b: Tables)
    requires Moments(past, a, future, b)
    ensures Later(a, b)
  {
    hide Run, Fresh, Inv, TokensOk, Kept, Stamped;
    EmptyIsOk();
    RunIsLater(Empty(), past);
    RunIsLater(a, future);
  }

  lemma EmptyIsOk()
    ensures Inv(Empty()) && TokensOk(Empty())
  {
  }

  lemma RunOne(db: Tables, s: Step)
    ensures Run(db, [s]) == After(db, s.now, s.command) && (Fresh(db, [s]) <==> s.now !in db.issued)
  {
    hide After;
    assert [s][1..] == [];
  }

  /** There are such moments: a page created by the first save of a run, and later in the bin. */
  lemma MomentsExist(input: SaveInput, t: Time, u: Time)
    requires t != u && input.details.interval >= 0
    ensures var past, future := [Step(t, Save(input))], [Step(u, Bin(input.slug))];
      var a, b := Run(Empty(), past), Run(Run(Empty(), past), future);
      && Moments(past, a, future, b) && 1 in a.pages && 1 in b.pages
      && a.pages[1] == NewPage(input, t) && b.pages[1] == NewPage(input, t).(binned := true)
  {
    hide Run, Fresh, LookupSlug, Elements, Inv, TokensOk;
    var save, bin := Step(t, Save(input)), Step(u, Bin(input.slug));
    RunOne(Empty(), save);
    var a := Run(Empty(), [save]);
    assert a.pages == map[1 := NewPage(input, t)] && a.issued == {t};
    RunOne(a, bin);
    EmptyIsOk();
    AfterIsLater(Empty(), t, Save(input));
    LaterInv(Empty(), a);
    OnlyPage(a);
  }

  lemma OnlyPage(db: Tables)
    requires Inv(db) && 1 in db.pages
    ensures PageAt(db.pages, db.pages[1].slug) == Some(1)
  {
    hide HistoryOk, ReviewsOk, SuggestionsOk, FeedbackOk, IdsOk;
    AtPath(db.pages, db.aliases, 1);
  }

  // ---- paths

  lemma OwnedResolves(pages: Pages, aliases: Aliases, id: Id, slug: string)
    requires PathsOk(pages, aliases) && id in pages && Owns(pages, aliases, id, slug)
    ensures Resolve(pages, aliases, slug) == if pages[id].binned then None else Some(id)
    ensures forall other :: Owns(pages, aliases, other, slug) && other in pages ==> other == id
  {
    hide PageAt;
    if pages[id].slug == slug {
      AtPath(pages, aliases, id);
    } else {
      NoPageAtAlias(pages, aliases, slug);
    }
  }

  /**
   A path that a page ever had stays that page's for as long as the page exists, whatever happens
   to any page meanwhile: it leads to that page, or to nothing while the page is in the bin.
   */
  lemma PathsNeverCaptured(past: seq<Step>, a: Tables, future: seq<Step>, b: Tables, id: Id, slug: string)
    requires Moments(past, a, future, b)
    requires id in a.pages && Owns(a.pages, a.aliases, id, slug) && id in b.pages
    ensures Resolve(b.pages, b.aliases, slug) == if b.pages[id].binned then None else Some(id)
    ensures forall other :: other in b.pages && Owns(b.pages, b.aliases, other, slug) ==> other == id
  {
    hide Moments, PathsOk, HistoryOk, ReviewsOk, SuggestionsOk, FeedbackOk, IdsOk, Resolve, Owns;
    MomentsLater(past, a, future, b);
    assert Owns(b.pages, b.aliases, id, slug);
    OwnedResolves(b.pages, b.aliases, id, slug);
  }

  // ---- reviews

  /** In every reachable state a page has at most one pending review. */
  lemma OnePendingReview(past: seq<Step>, a: Tables, r: Id, q: Id)
    requires Moments(past, a, [], a) && r in a.reviews && q in a.reviews && PendingOn(a.reviews[r], a.reviews[q])
    ensures r == q
  {
    hide Moments;
    MomentsLater(past, a, [], a);
  }

  /** Approved, canceled and superseded reviews never change, and a stale review is never decided. */
  lemma ReviewsSettle(past: seq<Step>, a: Tables, future: seq<Step>, b: Tables, r: Id)
    requires Moments(past, a, future, b) && r in a.reviews && r in b.reviews
    ensures a.reviews[r].status in {Approved, Canceled, Superseded} ==> b.reviews[r].status == a.reviews[r].status
    ensures !IsCurrent(a.history, a.reviews[r]) && b.reviews[r].status in {Approved, ChangesRequested} ==> b.reviews[r].status == a.reviews[r].status
    ensures b.reviews[r].page == a.reviews[r].page && b.reviews[r].revision == a.reviews[r].revision
  {
    hide Moments, Inv;
    MomentsLater(past, a, future, b);
    assert ReviewKept(a.history, a.reviews[r], b.reviews[r]);
  }

  /** At the step that decides a review, its captured revision is the page's current one, before and after. */
  lemma DecidedWhileCurrent(past: seq<Step>, a: Tables, now: Time, c: Command, r: Id)
    requires Moments(past, a, [], a) && now !in a.issued && r in a.reviews
    requires var b := After(a, now, c);
      r in b.reviews && b.reviews[r].status in {Approved, ChangesRequested} && b.reviews[r].status != a.reviews[r].status
    ensures IsCurrent(a.history, a.reviews[r]) && a.reviews[r].status.Pending?
    ensures c.Decide? && c.review == r && After(a, now, c).history == a.history
    ensures Assigned(a.reviews[r], c.user, c.groups, c.admin)
  {
    hide Moments, Inv, After, Attempt, DecideResult, Assigned;
    MomentsLater(past, a, [], a);
    AfterIsLater(a, now, c);
    assert ReviewKept(a.history, a.reviews[r], After(a, now, c).reviews[r]);
    IfAttempted(a, now, c);
    if c.Decide? {
      DecideDecides(a, now, c.review, c.slug, c.user, c.groups, c.admin, c.decision);
    } else {
      OthersDecideNothing(a, now, c);
    }
  }

  lemma IfAttempted(db: Tables, now: Time, c: Command)
    ensures Attempt(db, now, c).Done? ==> After(db, now, c) == Issue(Attempt(db, now, c).tables, now)
    ensures Attempt(db, now, c).Failed? ==> After(db, now, c) == db
    ensures c.Decide? ==> Attempt(db, now, c) == DecideResult(db, now, c.review, c.slug, c.user, c.groups, c.admin, c.decision)
  {
  }

  /** Statuses stay, or reviews are canceled or superseded. */
  ghost predicate NoDecision(reviews: Reviews, reviews': Reviews) {
    forall r :: r in reviews && r in reviews' ==> reviews'[r].status == reviews[r].status || reviews'[r].status in {Canceled, Superseded}
  }

  lemma SaveDecidesNothing(db: Tables, now: Time, input: SaveInput)
    requires SaveResult(db, now, input).Done?
    ensures NoDecision(db.reviews, SaveResult(db, now, input).tables.reviews)
  {
    hide NoDecision, InsertPage, Rename, Write;
    match PageAt(db.pages, LookupSlug(input))
    case None =>
      InsertReviews(db, input, now);
    case Some(id) =>
      RenameReviews(db, id, input.slug, now);
      WriteReviews(Rename(db, id, input.slug, now).tables, db.pages[id], id, input, now);
  }

  lemma InsertReviews(db: Tables, input: SaveInput, now: Time)
    requires InsertPage(db, input, now).Done?
    ensures NoDecision(db.reviews, InsertPage(db, input, now).tables.reviews)
  {
    hide PageAt, Elements;
  }

  lemma RenameReviews(db: Tables, id: Id, slug: Slug, now: Time)
    requires id in db.pages && Rename(db, id, slug, now).Done?
    ensures Rename(db, id, slug, now).tables.reviews == db.reviews && id in Rename(db, id, slug, now).tables.pages
  {
    hide Taken, MovedAliases;
  }

  lemma WriteReviews(db: Tables, before: Page, id: Id, input: SaveInput, now: Time)
    requires id in db.pages
    ensures NoDecision(db.reviews, Write(db, before, id, input, now).reviews)
  {
    hide SameContent, Elements, EditedPage, Append;
  }

  lemma SaveReviewKeys(db: Tables, now: Time, input: SaveInput)
    requires SaveResult(db, now, input).Done?
    ensures SaveResult(db, now, input).tables.reviews.Keys == db.reviews.Keys
  {
    hide InsertPage, Rename, Write;
    match PageAt(db.pages, LookupSlug(input))
    case None =>
      InsertKeys(db, input, now);
    case Some(id) =>
      RenameReviews(db, id, input.slug, now);
      WriteKeys(Rename(db, id, input.slug, now).tables, db.pages[id], id, input, now);
  }

  lemma InsertKeys(db: Tables, input: SaveInput, now: Time)
    requires InsertPage(db, input, now).Done?
    ensures InsertPage(db, input, now).tables.reviews == db.reviews
  {
    hide PageAt, Elements;
  }

  lemma WriteKeys(db: Tables, before: Page, id: Id, input: SaveInput, now: Time)
    requires id in db.pages
    ensures Write(db, before, id, input, now).reviews.Keys == db.reviews.Keys
  {
    hide SameContent, Elements, EditedPage, Append;
  }

  lemma {:induction false} ImportDecidesNothing(db: Tables, now: Time, inputs: seq<SaveInput>)
    requires ImportResult(db, now, inputs).Done?
    ensures NoDecision(db.reviews, ImportResult(db, now, inputs).tables.reviews)
    decreases |inputs|
  {
    hide SaveResult;
    if inputs != [] {
      var next := SaveResult(db, now, inputs[0]).tables;
      SaveDecidesNothing(db, now, inputs[0]);
      SaveReviewKeys(db, now, inputs[0]);
      ImportDecidesNothing(next, now, inputs[1..]);
    }
  }

  lemma SaveIfUnchangedDecidesNothing(db: Tables, now: Time, expected: Option<Time>, input: SaveInput)
    requires SaveIfUnchangedResult(db, now, expected, input).Done?
    ensures NoDecision(db.reviews, SaveIfUnchangedResult(db, now, expected, input).tables.reviews)
  {
    hide SaveResult, NoDecision;
    SaveDecidesNothing(db, now, input);
  }

  lemma RenderReviews(db: Tables, page: Id, expected: Time, render: string)
    ensures SaveRenderResult(db, page, expected, render).tables.reviews == db.reviews
  {
  }

  lemma BinDecidesNothing(db: Tables, slug: string)
    ensures BinResult(db, slug).Done? ==> BinResult(db, slug).tables.reviews == db.reviews
    ensures RestoreResult(db, slug).Done? ==> RestoreResult(db, slug).tables.reviews == db.reviews
    ensures PurgeResult(db, slug).Done? ==> NoDecision(db.reviews, PurgeResult(db, slug).tables.reviews)
  {
    hide PageAt;
  }

  lemma RequestDecidesNothing(db: Tables, now: Time, slug: string, reviewers: seq<Id>, group: int)
    requires Inv(db) && RequestResult(db, now, slug, reviewers, group).Done?
    ensures NoDecision(db.reviews, RequestResult(db, now, slug, reviewers, group).tables.reviews)
  {
    hide PageAt, Current, HasPending, Elements, PathsOk, HistoryOk, ReviewsOk, SuggestionsOk, FeedbackOk;
    assert db.nextId !in db.reviews;
  }

  lemma CancelDecidesNothing(db: Tables, now: Time, review: Id, slug: string, reviewers: seq<Id>, group: int)
    ensures CancelResult(db, now, review, slug).Done? ==> NoDecision(db.reviews, CancelResult(db, now, review, slug).tables.reviews)
    ensures UpdateResult(db, review, slug, reviewers, group).Done? ==> NoDecision(db.reviews, UpdateResult(db, review, slug, reviewers, group).tables.reviews)
  {
    hide PageAt, Current, Elements;
  }

  lemma ApplyDecidesNothing(db: Tables, now: Time, slug: string, comment: Id, markdown: string, render: string, links: seq<string>)
    requires ApplySuggestionResult(db, now, slug, comment, markdown, render, links).Done?
    ensures NoDecision(db.reviews, ApplySuggestionResult(db, now, slug, comment, markdown, render, links).tables.reviews)
  {
    hide PageAt, Current, SuggestionError, Elements;
  }

  lemma BatchDecidesNothing(db: Tables, now: Time, review: Id, slug: string, revision: nat, ids: seq<int>, all: bool, markdown: string, render: string, links: seq<string>)
    requires ApplyFeedbackResult(db, now, review, slug, revision, ids, all, markdown, render, links).Done?
    ensures NoDecision(db.reviews, ApplyFeedbackResult(db, now, review, slug, revision, ids, all, markdown, render, links).tables.reviews)
  {
    hide PageAt, Current, Outcome, Elements, SameIds;
  }

  lemma CommentDecidesNothing(db: Tables, review: Id, slug: string, edit: Edit, body: string, isSuggestion: bool, anchor: string, s: Suggestion, expected: string)
    ensures CommentResult(db, review, slug, edit, body, isSuggestion).Done? ==> CommentResult(db, review, slug, edit, body, isSuggestion).tables.reviews == db.reviews
    ensures SuggestResult(db, slug, anchor, s, expected).Done? ==> SuggestResult(db, slug, anchor, s, expected).tables.reviews == db.reviews
  {
    hide PageAt, Current, WellFormed, WellShaped;
  }

  lemma DecideDecides(db: Tables, now: Time, review: Id, slug: string, user: Id, groups: set<int>, admin: bool, decision: Decision)
    requires DecideResult(db, now, review, slug, user, groups, admin, decision).Done?
    ensures var db' := DecideResult(db, now, review, slug, user, groups, admin, decision).tables;
      && db'.history == db.history && review in db.reviews && Assigned(db.reviews[review], user, groups, admin)
      && (forall r :: r in db.reviews && r != review ==> r in db'.reviews && db'.reviews[r] == db.reviews[r])
  {
    hide PageAt, Current, Assigned;
  }

  /** No command but a decision on a review makes it approved or changes-requested. */
  lemma OthersDecideNothing(db: Tables, now: Time, c: Command)
    requires Inv(db) && Attempt(db, now, c).Done? && !c.Decide?
    ensures NoDecision(db.reviews, Attempt(db, now, c).tables.reviews)
  {
    hide Inv, NoDecision, SaveResult, SaveIfUnchangedResult, ImportResult, SaveRenderResult, MoveResult, BulkMoveFrom, BinResult, RestoreResult, PurgeResult, RequestResult, UpdateResult,
      CancelResult, DecideResult, SuggestResult, ApplySuggestionResult, CommentResult, ApplyFeedbackResult;
    NothingDecided(db.reviews);
    match c
    case Save(input) => SaveDecidesNothing(db, now, input);
    case SaveIfUnchanged(expected, input) => SaveIfUnchangedDecidesNothing(db, now, expected, input);
    case Import(inputs) => ImportDecidesNothing(db, now, inputs);
    case Move(source, target, children, updateLinks) => MoveReviews(db, now, source, target, children, updateLinks);
    case BulkMove(slugs, target) => BulkMoveReviews(db, now, slugs, target);
    case Bin(slug) => BinDecidesNothing(db, slug);
    case Restore(slug) => BinDecidesNothing(db, slug);
    case Purge(slug) => BinDecidesNothing(db, slug);
    case Request(slug, reviewers, group) => RequestDecidesNothing(db, now, slug, reviewers, group);
    case Update(review, slug, reviewers, group) => CancelDecidesNothing(db, now, review, slug, reviewers, group);
    case Cancel(review, slug) => CancelDecidesNothing(db, now, review, slug, [], 0);
    case Suggest(slug, anchor, revision, start, end, original, replacement, seen) =>
      CommentDecidesNothing(db, 0, slug, Edit.Edit(true, 0, 0, "", ""), "", true, anchor, Suggestion(0, revision, start, end, original, replacement, false), seen);
    case ApplySuggestion(slug, comment, markdown, render, links) => ApplyDecidesNothing(db, now, slug, comment, markdown, render, links);
    case Comment(review, slug, edit, body, isSuggestion) =>
      CommentDecidesNothing(db, review, slug, edit, body, isSuggestion, "", Suggestion(0, 0, 0, 0, "", "", false), "");
    case ApplyFeedback(review, slug, revision, ids, all, markdown, render, links) =>
      BatchDecidesNothing(db, now, review, slug, revision, ids, all, markdown, render, links);
    case SaveRender(page, expected, render) => RenderReviews(db, page, expected, render);
  }

  lemma NothingDecided(reviews: Reviews)
    ensures NoDecision(reviews, reviews)
  {
  }

  /** Link rewriting does not touch reviews. */
  lemma MoveReviews(db: Tables, now: Time, source: string, target: Path, children: bool, updateLinks: bool)
    ensures MoveResult(db, now, source, target, children, updateLinks).Done? ==> MoveResult(db, now, source, target, children, updateLinks).tables.reviews == db.reviews
  {
    hide SourcePath, Movable, Destinations, SomeTaken, Injective, LinkClash, PathMap, MovedAliases, MovedPages, EditedPages;
  }

  lemma {:induction false} BulkMoveReviews(db: Tables, now: Time, slugs: seq<string>, target: Path)
    ensures BulkMoveFrom(db, now, slugs, target).Done? ==> BulkMoveFrom(db, now, slugs, target).tables.reviews == db.reviews
    decreases |slugs|
  {
    hide MoveResult, SourcePath;
    if slugs != [] && BulkMoveOne(db, now, slugs[0], target).Done? {
      var source := SourcePath(slugs[0]);
      MoveReviews(db, now, source, target + "/" + Base(source), false, true);
      BulkMoveReviews(BulkMoveOne(db, now, slugs[0], target).tables, now, slugs[1..], target);
    }
  }

  // ---- version tokens

  /** A path and a version token seen at two moments name one page and one Markdown. */
  lemma TokensSound(past: seq<Step>, a: Tables, future: seq<Step>, b: Tables, i: Id, j: Id)
    requires Moments(past, a, future, b) && i in a.pages && j in b.pages && a.pages[i].updatedAt == b.pages[j].updatedAt
    ensures i == j ==> a.pages[i].markdown == b.pages[j].markdown && a.pages[i].slug == b.pages[j].slug
    ensures a.pages[i].slug == b.pages[j].slug ==> i == j
  {
    hide Moments, Kept, HistoryOk, ReviewsOk, SuggestionsOk, FeedbackOk, IdsOk;
    MomentsLater(past, a, future, b);
    assert a.pages[i].updatedAt in a.issued;
    assert j in a.pages && SameVersion(a.pages[j], b.pages[j]);
  }

  /** A conditional save that succeeds replaces exactly the Markdown that the editor had loaded. */
  lemma SaveReplacesWhatWasLoaded(past: seq<Step>, a: Tables, future: seq<Step>, b: Tables, loaded: Id, now: Time, token: Option<Time>, input: SaveInput)
    requires Moments(past, a, future, b) && loaded in a.pages
    requires token == Some(a.pages[loaded].updatedAt) && TrimSpace(input.previous) == a.pages[loaded].slug
    requires SaveIfUnchangedResult(b, now, token, input).Done?
    ensures loaded in b.pages && b.pages[loaded].slug == a.pages[loaded].slug && b.pages[loaded].markdown == a.pages[loaded].markdown
    ensures PageAt(b.pages, LookupSlug(input)) == Some(loaded)
  {
    hide Moments, SaveResult;
    var id := PageAt(b.pages, TrimSpace(input.previous)).value;
    TokensSound(past, a, future, b, loaded, id);
  }

  /** A render artifact is only ever attached to the Markdown it was made from. */
  lemma RenderMatchesMarkdown(past: seq<Step>, a: Tables, future: seq<Step>, b: Tables, id: Id, render: string -> string)
    requires Moments(past, a, future, b) && id in a.pages
    ensures var saved := SaveRenderResult(b, id, a.pages[id].updatedAt, render(a.pages[id].markdown)).tables;
      saved == b || (id in b.pages && saved == Put(b, id, b.pages[id].(render := render(b.pages[id].markdown))))
  {
    hide Moments;
    if id in b.pages && b.pages[id].updatedAt == a.pages[id].updatedAt {
      TokensSound(past, a, future, b, id, id);
    }
  }

  // ---- history

  /** Revisions are numbered without gaps, never change, and the newest holds the page's Markdown. */
  lemma HistoryIsFaithful(past: seq<Step>, a: Tables, future: seq<Step>, b: Tables, id: Id)
    requires Moments(past, a, future, b) && id in a.pages && id in b.pages
    ensures id in a.history && id in b.history && a.history[id] <= b.history[id]
    ensures Consecutive(b.history[id]) && Current(b.history, id) == |b.history[id]| >= 1
    ensures b.history[id][|b.history[id]| - 1].markdown == b.pages[id].markdown
  {
    hide Moments, Current;
    MomentsLater(past, a, future, b);
    CurrentIs(a, id);
    CurrentIs(b, id);
    assert HistoryKept(a.history, b.history);
  }
}
