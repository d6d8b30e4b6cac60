/**
 What every state of the page tables satisfies, what every transaction keeps, and the proof that the
 effects that transactions are made of do both.
 */
module PageInvariant {
  import opened Options
  import opened WikiLinks
  import opened ReviewEdits
  import opened PageTables
  import opened PageCommands

  // ---- state invariants

  /** Every path belongs to one page: slugs are unique, in the bin or not, and no alias hides one. */
  ghost predicate PathsOk(pages: Pages, aliases: Aliases) {
    && (forall i, j :: i in pages && j in pages && pages[i].slug == pages[j].slug ==> i == j)
    && (forall s :: s in aliases ==> aliases[s] in pages)
    && (forall i :: i in pages ==> pages[i].slug !in aliases)
  }

  /** Revisions are numbered 1, 2, ..., n. */
  ghost predicate Consecutive(rows: seq<Revision>) {
    forall k :: 0 <= k < |rows| ==> rows[k].number == k + 1
  }

  /** The newest revision holds the page's Markdown. */
  ghost predicate HeadAgrees(rows: seq<Revision>, page: Page) {
    rows != [] && Consecutive(rows) && rows[|rows| - 1].markdown == page.markdown
  }

  ghost predicate HistoryOk(pages: Pages, history: History) {
    history.Keys == pages.Keys && forall i :: i in pages ==> HeadAgrees(history[i], pages[i])
  }

  predicate PendingOn(r: Review, q: Review) {
    r.page == q.page && r.status.Pending? && q.status.Pending?
  }

  /** Reviews capture an existing revision, and a page has at most one pending review. */
  ghost predicate ReviewsOk(history: History, reviews: Reviews) {
    && (forall r :: r in reviews ==> reviews[r].page in history && 1 <= reviews[r].revision <= |history[reviews[r].page]|)
    && (forall r, q :: r in reviews && q in reviews && PendingOn(reviews[r], reviews[q]) ==> r == q)
  }

  ghost predicate Captured(history: History, s: Suggestion) {
    s.page in history && 1 <= s.revision <= |history[s.page]|
  }

  /** The revision after the captured one is the splice of the suggestion. */
  ghost predicate AppliedOnce(history: History, s: Suggestion)
    requires Captured(history, s)
  {
    var rows := history[s.page];
    s.revision < |rows| && MatchesSource(rows[s.revision - 1].markdown, s) && rows[s.revision].markdown == Splice(rows[s.revision - 1].markdown, s)
  }

  predicate AppliedOn(s: Suggestion, t: Suggestion) {
    s.applied && t.applied && s.page == t.page && s.revision == t.revision
  }

  ghost predicate SuggestionsOk(history: History, suggestions: Suggestions) {
    && (forall c :: c in suggestions ==> Captured(history, suggestions[c]))
    && (forall c :: c in suggestions && suggestions[c].applied ==> AppliedOnce(history, suggestions[c]))
    && (forall c, d :: c in suggestions && d in suggestions && AppliedOn(suggestions[c], suggestions[d]) ==> c == d)
  }

  ghost predicate IsApplied(feedback: Comments, review: Id, f: Id) {
    f in feedback && feedback[f].request == review && feedback[f].applied
  }

  ghost predicate Enumerates(feedback: Comments, review: Id, ids: seq<int>) {
    Distinct(ids) && (forall k :: 0 <= k < |ids| ==> IsApplied(feedback, review, ids[k])) && (forall f :: IsApplied(feedback, review, f) ==> f in ids)
  }

  /** The revision after the reviewed one is the batch of all the review's applied suggestions. */
  ghost predicate IsBatch(history: History, review: Review, feedback: Comments, id: Id, ids: seq<int>) {
    && Enumerates(feedback, id, ids)
    && review.page in history && 1 <= review.revision < |history[review.page]|
    && Outcome(history[review.page][review.revision - 1].markdown, multiset(EditsOf(feedback, ids)))
         == Ok(history[review.page][review.revision].markdown)
  }

  ghost predicate AppliedAsBatch(history: History, review: Review, feedback: Comments, id: Id) {
    exists ids: seq<int> :: IsBatch(history, review, feedback, id, ids)
  }

  ghost predicate FeedbackOk(history: History, reviews: Reviews, feedback: Comments) {
    && (forall f :: f in feedback ==> feedback[f].request in reviews)
    && (forall f :: f in feedback && feedback[f].applied ==>
          reviews[feedback[f].request].status.Superseded?
          && AppliedAsBatch(history, reviews[feedback[f].request], feedback, feedback[f].request))
  }

  /** Link rows belong to existing pages. */
  ghost predicate LinksOk(pages: Pages, links: set<LinkRow>) {
    forall l :: l in links ==> l.source in pages
  }

  ghost predicate IdsOk(db: Tables) {
    && (forall i :: i in db.pages ==> 0 < i < db.nextId)
    && (forall i :: i in db.reviews ==> 0 < i < db.nextId)
    && (forall i :: i in db.suggestions ==> 0 < i < db.nextId)
    && (forall i :: i in db.feedback ==> 0 < i < db.nextId)
    && 0 < db.nextId
  }

  ghost predicate Inv(db: Tables) {
    && PathsOk(db.pages, db.aliases)
    && HistoryOk(db.pages, db.history)
    && ReviewsOk(db.history, db.reviews)
    && SuggestionsOk(db.history, db.suggestions)
    && FeedbackOk(db.history, db.reviews, db.feedback)
    && LinksOk(db.pages, db.links)
    && IdsOk(db)
  }

  /** Version tokens come from committed transactions. */
  ghost predicate TokensOk(db: Tables) {
    forall i :: i in db.pages ==> db.pages[i].updatedAt in db.issued
  }

  // ---- what lasts from one state to a later one

  /** A page has a path now or had it before. */
  ghost predicate Owns(pages: Pages, aliases: Aliases, id: Id, slug: string) {
    Holds(pages, id, slug) || (slug in aliases && aliases[slug] == id)
  }

  ghost predicate PathsKept(pages: Pages, aliases: Aliases, pages': Pages, aliases': Aliases) {
    forall i, s :: i in pages && i in pages' && Owns(pages, aliases, i, s) ==> Owns(pages', aliases', i, s)
  }

  ghost predicate HistoryKept(history: History, history': History) {
    forall i :: i in history && i in history' ==> history[i] <= history'[i]
  }

  /** How a review's status may change while its captured revision is current, or is not. */
  predicate Progress(before: ReviewStatus, current: bool, after: ReviewStatus) {
    || before == after
    || (before.Pending? && (after.Canceled? || after.Superseded? || (current && (after.Approved? || after.ChangesRequested?))))
    || (before.ChangesRequested? && after.Superseded?)
  }

  ghost predicate IsCurrent(history: History, review: Review) {
    review.page in history && review.revision == |history[review.page]|
  }

  ghost predicate ReviewKept(history: History, before: Review, after: Review) {
    && before.page == after.page && before.revision == after.revision && before.previous == after.previous
    && Progress(before.status, IsCurrent(history, before), after.status)
  }

  ghost predicate ReviewsKept(history: History, reviews: Reviews, reviews': Reviews) {
    forall r :: r in reviews && r in reviews' ==> ReviewKept(history, reviews[r], reviews'[r])
  }

  /** Suggestions live as long as their page, never change, and stay applied. */
  ghost predicate SuggestionsKept(suggestions: Suggestions, history': History, suggestions': Suggestions) {
    forall c :: c in suggestions && suggestions[c].page in history' ==>
      && c in suggestions'
      && suggestions'[c] == suggestions[c].(applied := suggestions'[c].applied) && (suggestions[c].applied ==> suggestions'[c].applied)
  }

  /** Feedback lives as long as its review, and a review whose suggestions were applied has no others applied later. */
  ghost predicate FeedbackKept(feedback: Comments, reviews': Reviews, feedback': Comments) {
    && (forall f :: f in feedback && feedback[f].request in reviews' ==>
          f in feedback' && feedback'[f] == feedback[f].(applied := feedback'[f].applied) && (feedback[f].applied ==> feedback'[f].applied))
    && (forall f, g :: f in feedback && feedback[f].applied && IsApplied(feedback', feedback[f].request, g) ==> IsApplied(feedback, feedback[f].request, g))
  }

  /** Ids are never used again. */
  ghost predicate IdsKept(db: Tables, db': Tables) {
    && db.nextId <= db'.nextId
    && (forall i :: i in db'.pages && i !in db.pages ==> db.nextId <= i)
    && (forall i :: i in db'.reviews && i !in db.reviews ==> db.nextId <= i)
    && (forall i :: i in db'.suggestions && i !in db.suggestions ==> db.nextId <= i)
  }

  ghost predicate Kept(db: Tables, db': Tables) {
    && PathsKept(db.pages, db.aliases, db'.pages, db'.aliases)
    && HistoryKept(db.history, db'.history)
    && ReviewsKept(db.history, db.reviews, db'.reviews)
    && SuggestionsKept(db.suggestions, db'.history, db'.suggestions)
    && FeedbackKept(db.feedback, db'.reviews, db'.feedback)
    && IdsKept(db, db')
  }

  /** The version a token stands for is the same row. */
  predicate SameVersion(before: Page, after: Page) {
    before.updatedAt == after.updatedAt && before.markdown == after.markdown && before.slug == after.slug
  }

  /** Within a transaction: a row is the same version or carries the transaction's timestamp. */
  ghost predicate StampedAt(pages: Pages, pages': Pages, now: Time) {
    forall i :: i in pages' ==> pages'[i].updatedAt == now || (i in pages && SameVersion(pages[i], pages'[i]))
  }

  /** Across transactions: a row is the same version or carries a timestamp issued since. */
  ghost predicate Stamped(db: Tables, db': Tables) {
    && db.issued <= db'.issued
    && forall i :: i in db'.pages ==> db'.pages[i].updatedAt !in db.issued || (i in db.pages && SameVersion(db.pages[i], db'.pages[i]))
  }

  // ---- numbers

  lemma {:induction false} LatestIs(rows: seq<Revision>)
    requires Consecutive(rows)
    ensures Latest(rows) == |rows|
  {
    if rows != [] {
      LatestIs(rows[..|rows| - 1]);
    }
  }

  lemma CurrentIs(db: Tables, id: Id)
    requires Inv(db) && id in db.pages
    ensures id in db.history && Current(db.history, id) == |db.history[id]| >= 1
    ensures HeadAgrees(db.history[id], db.pages[id])
  {
    LatestIs(db.history[id]);
  }

  // ---- lasting is transitive

  lemma PathsKeptTrans(a: Tables, b: Tables, c: Tables)
    requires IdsOk(a) && IdsKept(a, b) && IdsKept(b, c)
    requires PathsKept(a.pages, a.aliases, b.pages, b.aliases) && PathsKept(b.pages, b.aliases, c.pages, c.aliases)
    ensures PathsKept(a.pages, a.aliases, c.pages, c.aliases)
  {
    hide Owns;
    forall i, s | i in a.pages && i in c.pages && Owns(a.pages, a.aliases, i, s)
      ensures Owns(c.pages, c.aliases, i, s)
    {
      assert i in b.pages;
      assert Owns(b.pages, b.aliases, i, s);
    }
  }

  lemma HistoryKeptTrans(a: Tables, b: Tables, c: Tables)
    requires IdsOk(a) && IdsKept(a, b) && IdsKept(b, c)
    requires HistoryOk(a.pages, a.history) && HistoryOk(b.pages, b.history) && HistoryOk(c.pages, c.history)
    requires HistoryKept(a.history, b.history) && HistoryKept(b.history, c.history)
    ensures HistoryKept(a.history, c.history)
  {
    hide HeadAgrees;
    forall i | i in a.history && i in c.history
      ensures a.history[i] <= c.history[i]
    {
      assert i in a.pages && i in c.pages;
      assert i in b.pages;
      assert a.history[i] <= b.history[i] <= c.history[i];
    }
  }

  lemma ProgressTrans(x: ReviewStatus, current: bool, y: ReviewStatus, current': bool, z: ReviewStatus)
    requires Progress(x, current, y) && Progress(y, current', z)
    requires current' ==> current
    ensures Progress(x, current, z)
  {
  }

  /** A review that is not current never becomes current again. */
  lemma StaysStale(a: Tables, b: Tables, r: Review)
    requires Inv(a) && Inv(b) && HistoryKept(a.history, b.history) && r.page in a.history
    requires r.revision <= |a.history[r.page]| && IsCurrent(b.history, r)
    ensures IsCurrent(a.history, r)
  {
  }

  lemma ReviewsKeptTrans(a: Tables, b: Tables, c: Tables)
    requires Inv(a) && Inv(b) && IdsKept(a, b) && IdsKept(b, c) && HistoryKept(a.history, b.history)
    requires ReviewsKept(a.history, a.reviews, b.reviews) && ReviewsKept(b.history, b.reviews, c.reviews)
    ensures ReviewsKept(a.history, a.reviews, c.reviews)
  {
    hide SuggestionsOk, FeedbackOk, PathsOk, HistoryOk, HistoryKept;
    forall r | r in a.reviews && r in c.reviews
      ensures ReviewKept(a.history, a.reviews[r], c.reviews[r])
    {
      assert r in b.reviews;
      assert ReviewKept(a.history, a.reviews[r], b.reviews[r]) && ReviewKept(b.history, b.reviews[r], c.reviews[r]);
      if IsCurrent(b.history, b.reviews[r]) {
        assert IsCurrent(b.history, a.reviews[r]);
        StaysStale(a, b, a.reviews[r]);
      }
      ProgressTrans(a.reviews[r].status, IsCurrent(a.history, a.reviews[r]), b.reviews[r].status, IsCurrent(b.history, b.reviews[r]), c.reviews[r].status);
    }
  }

  lemma SuggestionsKeptTrans(a: Tables, b: Tables, c: Tables)
    requires IdsOk(a) && IdsKept(a, b) && IdsKept(b, c) && SuggestionsOk(a.history, a.suggestions)
    requires a.history.Keys == a.pages.Keys && b.history.Keys == b.pages.Keys && c.history.Keys == c.pages.Keys
    requires SuggestionsKept(a.suggestions, b.history, b.suggestions) && SuggestionsKept(b.suggestions, c.history, c.suggestions)
    ensures SuggestionsKept(a.suggestions, c.history, c.suggestions)
  {
    forall s | s in a.suggestions && a.suggestions[s].page in c.history
      ensures s in c.suggestions && c.suggestions[s] == a.suggestions[s].(applied := c.suggestions[s].applied) && (a.suggestions[s].applied ==> c.suggestions[s].applied)
    {
      assert Captured(a.history, a.suggestions[s]);
      assert a.suggestions[s].page in a.pages && a.suggestions[s].page in c.pages;
      assert a.suggestions[s].page in b.pages;
    }
  }

  lemma FeedbackKeptTrans(a: Tables, b: Tables, c: Tables)
    requires IdsOk(a) && IdsKept(a, b) && IdsKept(b, c)
    requires (forall f :: f in a.feedback ==> a.feedback[f].request in a.reviews) && (forall f :: f in c.feedback ==> c.feedback[f].request in c.reviews)
    requires FeedbackKept(a.feedback, b.reviews, b.feedback) && FeedbackKept(b.feedback, c.reviews, c.feedback)
    ensures FeedbackKept(a.feedback, c.reviews, c.feedback)
  {
    forall f | f in a.feedback && a.feedback[f].request in c.reviews
      ensures f in b.feedback && f in c.feedback && c.feedback[f] == a.feedback[f].(applied := c.feedback[f].applied)
      ensures b.feedback[f].request == a.feedback[f].request && (a.feedback[f].applied ==> b.feedback[f].applied && c.feedback[f].applied)
    {
      assert a.feedback[f].request in b.reviews;
    }
    forall f, g | f in a.feedback && a.feedback[f].applied && IsApplied(c.feedback, a.feedback[f].request, g)
      ensures IsApplied(a.feedback, a.feedback[f].request, g)
    {
      assert f in b.feedback && b.feedback[f].applied;
      assert IsApplied(b.feedback, a.feedback[f].request, g);
    }
  }

  lemma KeptTrans(a: Tables, b: Tables, c: Tables)
    requires Inv(a) && Inv(b) && Inv(c) && Kept(a, b) && Kept(b, c)
    ensures Kept(a, c)
  {
    hide PathsKept, HistoryKept, ReviewsKept, SuggestionsKept, FeedbackKept, PathsOk, HistoryOk, ReviewsOk, SuggestionsOk, IdsOk;
    SameKeys(a);
    SameKeys(b);
    SameKeys(c);
    PathsKeptTrans(a, b, c);
    HistoryKeptTrans(a, b, c);
    ReviewsKeptTrans(a, b, c);
    SuggestionsKeptTrans(a, b, c);
    FeedbackKeptTrans(a, b, c);
  }

  lemma StampedAtTrans(a: Pages, b: Pages, c: Pages, now: Time)
    requires StampedAt(a, b, now) && StampedAt(b, c, now)
    ensures StampedAt(a, c, now)
  {
  }

  lemma StampedTrans(a: Tables, b: Tables, c: Tables)
    requires Stamped(a, b) && Stamped(b, c)
    ensures Stamped(a, c)
  {
  }

  /** Everything a transaction keeps, from its start to any of its states. */
  ghost predicate Keeps(a: Tables, b: Tables, now: Time) {
    Inv(b) && Kept(a, b) && StampedAt(a.pages, b.pages, now) && a.issued == b.issued
  }

  lemma KeepsTrans(a: Tables, b: Tables, c: Tables, now: Time)
    requires Inv(a) && Keeps(a, b, now) && Keeps(b, c, now)
    ensures Keeps(a, c, now)
  {
    hide Kept, Inv, StampedAt;
    KeptTrans(a, b, c);
    StampedAtTrans(a.pages, b.pages, c.pages, now);
  }

  lemma KeepsSelf(a: Tables, now: Time)
    requires Inv(a)
    ensures Keeps(a, a, now)
  {
  }

  // ---- effects

  /** A row replaced without touching its path or Markdown. */
  lemma PutKeeps(db: Tables, id: Id, page: Page, now: Time)
    requires Inv(db) && id in db.pages && page.slug == db.pages[id].slug && page.markdown == db.pages[id].markdown
    requires page.updatedAt == now || page.updatedAt == db.pages[id].updatedAt
    ensures Keeps(db, Put(db, id, page), now)
  {
    hide ReviewsOk, SuggestionsOk, FeedbackOk;
    KeptSelf(db, now);
  }

  lemma KeptSelf(db: Tables, now: Time)
    requires Inv(db)
    ensures ReviewsKept(db.history, db.reviews, db.reviews) && SuggestionsKept(db.suggestions, db.history, db.suggestions)
    ensures FeedbackKept(db.feedback, db.reviews, db.feedback) && HistoryKept(db.history, db.history)
  {
  }

  // ---- rows that stay while the history around them grows or loses pages

  lemma AppliedStays(history: History, history': History, s: Suggestion)
    requires HistoryKept(history, history') && Captured(history, s) && AppliedOnce(history, s) && s.page in history'
    ensures Captured(history', s) && AppliedOnce(history', s)
  {
    assert history[s.page] <= history'[s.page];
  }

  lemma SuggestionsStay(history: History, suggestions: Suggestions, history': History, suggestions': Suggestions)
    requires SuggestionsOk(history, suggestions) && HistoryKept(history, history')
    requires forall c :: c in suggestions' ==> c in suggestions && suggestions'[c] == suggestions[c] && suggestions[c].page in history'
    requires forall c :: c in suggestions && suggestions[c].page in history' ==> c in suggestions'
    ensures SuggestionsOk(history', suggestions') && SuggestionsKept(suggestions, history', suggestions')
  {
    hide AppliedOnce;
    forall c | c in suggestions'
      ensures Captured(history', suggestions'[c]) && (suggestions'[c].applied ==> AppliedOnce(history', suggestions'[c]))
    {
      assert Captured(history, suggestions[c]);
      if suggestions[c].applied {
        AppliedStays(history, history', suggestions[c]);
      }
    }
  }

  lemma ReviewsStay(history: History, reviews: Reviews, history': History, reviews': Reviews)
    requires ReviewsOk(history, reviews) && HistoryKept(history, history')
    requires forall r :: r in reviews' ==> r in reviews && reviews'[r] == reviews[r] && reviews[r].page in history'
    ensures ReviewsOk(history', reviews') && ReviewsKept(history, reviews, reviews')
  {
  }

  lemma BatchStays(history: History, review: Review, feedback: Comments, history': History, review': Review, feedback': Comments, id: Id, ids: seq<int>)
    requires HistoryKept(history, history') && IsBatch(history, review, feedback, id, ids) && review.page in history'
    requires review'.page == review.page && review'.revision == review.revision
    requires forall f :: f in feedback && feedback[f].request == id ==> f in feedback' && feedback'[f] == feedback[f]
    requires forall f :: f in feedback' && feedback'[f].request == id ==> f in feedback && feedback'[f] == feedback[f]
    ensures IsBatch(history', review', feedback', id, ids)
  {
    hide Outcome;
    assert history[review.page] <= history'[review.page];
    forall k | 0 <= k < |ids|
      ensures ids[k] in feedback && ids[k] in feedback' && feedback'[ids[k]] == feedback[ids[k]]
    {
      assert IsApplied(feedback, id, ids[k]);
    }
    assert EditsOf(feedback', ids) == EditsOf(feedback, ids);
  }

  /** Both rows are about one revision, and a superseded review stays superseded. */
  predicate SameCapture(before: Review, after: Review) {
    after.page == before.page && after.revision == before.revision && (before.status.Superseded? ==> after.status.Superseded?)
  }

  /** Feedback rows may go with their reviews; the reviews that stay keep what a batch depends on. */
  lemma FeedbackStays(history: History, reviews: Reviews, feedback: Comments, history': History, reviews': Reviews, feedback': Comments)
    requires FeedbackOk(history, reviews, feedback) && HistoryKept(history, history')
    requires forall f :: f in feedback' ==> f in feedback && feedback'[f] == feedback[f] && feedback[f].request in reviews'
    requires forall f :: f in feedback && feedback[f].request in reviews' ==> f in feedback'
    requires forall r :: r in reviews && r in reviews' ==> reviews[r].page in history' && SameCapture(reviews[r], reviews'[r])
    ensures FeedbackOk(history', reviews', feedback') && FeedbackKept(feedback, reviews', feedback')
  {
    hide IsBatch;
    forall f | f in feedback' && feedback'[f].applied
      ensures AppliedAsBatch(history', reviews'[feedback'[f].request], feedback', feedback'[f].request)
    {
      var r := feedback[f].request;
      assert AppliedAsBatch(history, reviews[r], feedback, r);
      var ids :| IsBatch(history, reviews[r], feedback, r, ids);
      BatchStays(history, reviews[r], feedback, history', reviews'[r], feedback', r, ids);
    }
  }

  // ---- revisions

  lemma AppendedRow(history: History, id: Id, page: Page)
    requires id in history && history[id] != [] && Consecutive(history[id])
    ensures var rows := Append(history, id, page.markdown)[id]; history[id] <= rows && |rows| == |history[id]| + 1 && HeadAgrees(rows, page)
  {
    LatestIs(history[id]);
  }

  /** The history half of new revisions. */
  lemma RevisedHistory(db: Tables, rows: Pages)
    requires HistoryOk(db.pages, db.history) && rows.Keys <= db.pages.Keys
    ensures HistoryOk(Revised(db, rows).pages, Revised(db, rows).history) && HistoryKept(db.history, Revised(db, rows).history)
  {
    var db' := Revised(db, rows);
    assert db'.pages.Keys == db.pages.Keys && db'.history.Keys == db.history.Keys;
    forall i | i in db.pages
      ensures HeadAgrees(db'.history[i], db'.pages[i]) && db.history[i] <= db'.history[i]
    {
      assert HeadAgrees(db.history[i], db.pages[i]);
      if i in rows {
        AppendedRow(db.history, i, rows[i]);
      }
    }
  }

  /** Page rows replaced in place. */
  lemma RevisedPaths(pages: Pages, aliases: Aliases, rows: Pages, now: Time)
    requires PathsOk(pages, aliases) && rows.Keys <= pages.Keys
    requires forall i :: i in rows ==> rows[i].slug == pages[i].slug && rows[i].updatedAt == now
    ensures PathsOk(pages + rows, aliases) && PathsKept(pages, aliases, pages + rows, aliases) && StampedAt(pages, pages + rows, now)
  {
    assert forall i :: i in pages ==> (pages + rows)[i].slug == pages[i].slug;
  }

  lemma RevisedKeeps(db: Tables, rows: Pages, now: Time)
    requires Inv(db) && rows.Keys <= db.pages.Keys
    requires forall i :: i in rows ==> rows[i].slug == db.pages[i].slug && rows[i].updatedAt == now
    ensures Keeps(db, Revised(db, rows), now)
  {
    hide HistoryOk, HistoryKept, PathsOk, PathsKept, StampedAt, ReviewsOk, SuggestionsOk, FeedbackOk, ReviewsKept, SuggestionsKept, FeedbackKept, Append;
    var db' := Revised(db, rows);
    SameKeys(db);
    RevisedHistory(db, rows);
    RevisedPaths(db.pages, db.aliases, rows, now);
    assert db'.history.Keys == db.history.Keys;
    RevisedRest(db, db');
  }

  lemma SameKeys(db: Tables)
    requires Inv(db)
    ensures db.history.Keys == db.pages.Keys
  {
  }

  lemma RevisedRest(db: Tables, db': Tables)
    requires ReviewsOk(db.history, db.reviews) && SuggestionsOk(db.history, db.suggestions) && FeedbackOk(db.history, db.reviews, db.feedback)
    requires HistoryKept(db.history, db'.history) && db.history.Keys <= db'.history.Keys
    requires db'.reviews == db.reviews && db'.suggestions == db.suggestions && db'.feedback == db.feedback
    ensures ReviewsOk(db'.history, db'.reviews) && ReviewsKept(db.history, db.reviews, db'.reviews)
    ensures SuggestionsOk(db'.history, db'.suggestions) && SuggestionsKept(db.suggestions, db'.history, db'.suggestions)
    ensures FeedbackOk(db'.history, db'.reviews, db'.feedback) && FeedbackKept(db.feedback, db'.reviews, db'.feedback)
  {
    hide HistoryKept, ReviewsOk, SuggestionsOk, FeedbackOk, ReviewsKept, SuggestionsKept, FeedbackKept;
    InHistory(db);
    ReviewsStay(db.history, db.reviews, db'.history, db'.reviews);
    SuggestionsStay(db.history, db.suggestions, db'.history, db'.suggestions);
    FeedbackStays(db.history, db.reviews, db.feedback, db'.history, db'.reviews, db'.feedback);
  }

  /** Rows reference rows that exist. */
  lemma InHistory(db: Tables)
    requires ReviewsOk(db.history, db.reviews) && SuggestionsOk(db.history, db.suggestions) && FeedbackOk(db.history, db.reviews, db.feedback)
    ensures forall r :: r in db.reviews ==> db.reviews[r].page in db.history
    ensures forall c :: c in db.suggestions ==> db.suggestions[c].page in db.history
    ensures forall f :: f in db.feedback ==> db.feedback[f].request in db.reviews
  {
    hide AppliedAsBatch, AppliedOnce;
  }

  // ---- paths

  /** Each page goes to another path, one that no other page has or had. */
  ghost predicate Free(pages: Pages, aliases: Aliases, to: map<Id, Slug>) {
    to.Keys <= pages.Keys && forall i :: i in to ==> !Taken(pages, aliases, i, to[i]) && to[i] != pages[i].slug
  }

  /** The moves a transaction may make: free destinations, no two alike. */
  ghost predicate CanMove(pages: Pages, aliases: Aliases, to: map<Id, Slug>) {
    Free(pages, aliases, to) && Injective(to)
  }

  lemma AtPath(pages: Pages, aliases: Aliases, id: Id)
    requires PathsOk(pages, aliases) && id in pages
    ensures PageAt(pages, pages[id].slug) == Some(id)
  {
    assert Holds(pages, id, pages[id].slug);
  }

  /** A destination is no page's path, and an alias only of the page that goes there. */
  lemma FreeDestination(pages: Pages, aliases: Aliases, to: map<Id, Slug>, i: Id)
    requires CanMove(pages, aliases, to) && i in to
    ensures forall j :: j in pages ==> pages[j].slug != to[i]
    ensures to[i] in aliases ==> aliases[to[i]] == i
  {
    FreeGoal(pages, aliases, to, i);
  }

  lemma FreeGoal(pages: Pages, aliases: Aliases, to: map<Id, Slug>, i: Id)
    requires Free(pages, aliases, to) && i in to
    ensures forall j :: j in pages ==> pages[j].slug != to[i]
    ensures to[i] in aliases ==> aliases[to[i]] == i
  {
    forall j | j in pages
      ensures pages[j].slug != to[i]
    {
      if j != i {
        assert !Taken(pages, aliases, i, to[i]);
        assert Holds(pages, j, to[i]) <==> pages[j].slug == to[i];
      }
    }
    assert !Taken(pages, aliases, i, to[i]);
  }

  /** The aliases after a move, path by path. */
  lemma MovedAliasesAt(pages: Pages, aliases: Aliases, to: map<Id, Slug>, s: string)
    requires PathsOk(pages, aliases) && CanMove(pages, aliases, to)
    ensures var after := MovedAliases(pages, aliases, to);
      && (s in after <==> (s in aliases && s !in Goals(to)) || (PageAt(pages, s).Some? && PageAt(pages, s).value in to))
      && (s in after && s in aliases ==> after[s] == aliases[s])
      && (s in after && s !in aliases ==> PageAt(pages, s).Some? && after[s] == PageAt(pages, s).value)
  {
    hide PageAt, Holds, Taken;
    var at := PageAt(pages, s);
    if at.Some? && at.value in to {
      HoldsAt(pages, s);
      assert s in OldPaths(pages, to);
    }
    if s in OldPaths(pages, to) {
      var i :| i in to && i in pages && pages[i].slug == s;
      AtPath(pages, aliases, i);
    }
    if s in aliases {
      NoPageAtAlias(pages, aliases, s);
    }
  }

  lemma HoldsAt(pages: Pages, s: string)
    requires PageAt(pages, s).Some?
    ensures PageAt(pages, s).value in pages && pages[PageAt(pages, s).value].slug == s
  {
  }

  lemma NoPageAtAlias(pages: Pages, aliases: Aliases, s: string)
    requires PathsOk(pages, aliases) && s in aliases
    ensures PageAt(pages, s).None?
  {
  }

  lemma MovedPathsOk(pages: Pages, aliases: Aliases, to: map<Id, Slug>, now: Time)
    requires PathsOk(pages, aliases) && CanMove(pages, aliases, to)
    ensures PathsOk(MovedPages(pages, to, now), MovedAliases(pages, aliases, to))
  {
    hide PageAt, Taken, MovedAliases, CanMove;
    var pages', aliases' := MovedPages(pages, to, now), MovedAliases(pages, aliases, to);
    forall i, j | i in pages' && j in pages' && pages'[i].slug == pages'[j].slug
      ensures i == j
    {
      SamePath(pages, aliases, to, now, i, j);
    }
    forall s | s in aliases'
      ensures aliases'[s] in pages'
    {
      MovedAliasesAt(pages, aliases, to, s);
      if s !in aliases { HoldsAt(pages, s); }
    }
    forall i | i in pages'
      ensures pages'[i].slug !in aliases'
    {
      MovedAliasesAt(pages, aliases, to, pages'[i].slug);
      if i in to {
        FreeDestination(pages, aliases, to, i);
        assert to[i] in Goals(to);
        if PageAt(pages, to[i]).Some? { HoldsAt(pages, to[i]); }
      } else {
        AtPath(pages, aliases, i);
      }
    }
  }

  lemma SamePath(pages: Pages, aliases: Aliases, to: map<Id, Slug>, now: Time, i: Id, j: Id)
    requires PathsOk(pages, aliases) && CanMove(pages, aliases, to) && i in pages && j in pages
    requires MovedPages(pages, to, now)[i].slug == MovedPages(pages, to, now)[j].slug
    ensures i == j
  {
    hide Taken;
    if i in to { FreeDestination(pages, aliases, to, i); }
    if j in to { FreeDestination(pages, aliases, to, j); }
  }

  lemma WhoGoesTo(to: map<Id, Slug>, s: string) returns (i: Id)
    requires s in Goals(to)
    ensures i in to && to[i] == s
  {
    i :| i in to && to[i] == s;
  }

  lemma MovedPathsKept(pages: Pages, aliases: Aliases, to: map<Id, Slug>, now: Time)
    requires PathsOk(pages, aliases) && CanMove(pages, aliases, to)
    ensures PathsKept(pages, aliases, MovedPages(pages, to, now), MovedAliases(pages, aliases, to))
  {
    hide PageAt, Taken, MovedAliases, CanMove;
    var pages', aliases' := MovedPages(pages, to, now), MovedAliases(pages, aliases, to);
    forall i, s | i in pages && Owns(pages, aliases, i, s)
      ensures Owns(pages', aliases', i, s)
    {
      MovedAliasesAt(pages, aliases, to, s);
      if pages[i].slug == s {
        AtPath(pages, aliases, i);
      } else if s in Goals(to) {
        var j := WhoGoesTo(to, s);
        FreeDestination(pages, aliases, to, j);
        InPages(pages, aliases, to, j);
      }
    }
  }

  lemma InPages(pages: Pages, aliases: Aliases, to: map<Id, Slug>, i: Id)
    requires CanMove(pages, aliases, to) && i in to
    ensures i in pages
  {
  }

  lemma MovedKeeps(db: Tables, to: map<Id, Slug>, now: Time, links: set<LinkRow>)
    requires Inv(db) && CanMove(db.pages, db.aliases, to) && LinksOk(db.pages, links)
    ensures Keeps(db, Moved(db, to, now).(links := links), now)
  {
    hide MovedAliases, CanMove, PathsOk, PathsKept, Consecutive, ReviewsOk, SuggestionsOk, FeedbackOk;
    MovedPathsOk(db.pages, db.aliases, to, now);
    MovedPathsKept(db.pages, db.aliases, to, now);
    KeptSelf(db, now);
    var db' := Moved(db, to, now);
    assert db'.pages.Keys == db.pages.Keys;
  }

  // ---- pages come and go

  lemma CreatedKeeps(db: Tables, page: Page, now: Time)
    requires Inv(db) && page.updatedAt == now && page.slug !in db.aliases && PageAt(db.pages, page.slug).None?
    ensures Keeps(db, Created(db, page), now)
  {
    hide PathsOk, PathsKept, HistoryOk, HistoryKept, PageAt, ReviewsOk, SuggestionsOk, FeedbackOk, ReviewsKept, SuggestionsKept, FeedbackKept;
    var db' := Created(db, page);
    NoneAt(db.pages, page.slug);
    assert db.nextId !in db.pages;
    CreatedPaths(db.pages, db.aliases, db.nextId, page);
    CreatedHistory(db.pages, db.history, db.nextId, page);
    RevisedRest(db, db');
  }

  lemma CreatedPaths(pages: Pages, aliases: Aliases, id: Id, page: Page)
    requires PathsOk(pages, aliases) && id !in pages && page.slug !in aliases && forall i :: i in pages ==> pages[i].slug != page.slug
    ensures PathsOk(pages[id := page], aliases) && PathsKept(pages, aliases, pages[id := page], aliases)
  {
  }

  lemma CreatedHistory(pages: Pages, history: History, id: Id, page: Page)
    requires HistoryOk(pages, history) && id !in pages
    ensures var history' := history[id := [Revision(1, page.markdown)]];
      HistoryOk(pages[id := page], history') && HistoryKept(history, history') && history.Keys <= history'.Keys
  {
    hide Consecutive;
    FirstRevision(page);
  }

  lemma FirstRevision(page: Page)
    ensures HeadAgrees([Revision(1, page.markdown)], page)
  {
  }

  lemma NoneAt(pages: Pages, s: string)
    requires PageAt(pages, s).None?
    ensures forall i :: i in pages ==> pages[i].slug != s
  {
  }

  lemma PurgedKeeps(db: Tables, id: Id, now: Time)
    requires Inv(db)
    ensures Keeps(db, Purged(db, id), now)
  {
    hide HistoryOk, HistoryKept, PathsOk, PathsKept, ReviewsOk, SuggestionsOk, FeedbackOk, ReviewsKept, SuggestionsKept, FeedbackKept, HeadAgrees;
    var db' := Purged(db, id);
    SameKeys(db);
    PurgedHistory(db, id);
    PurgedRest(db, id);
    PurgedPaths(db, id);
  }

  lemma PurgedRest(db: Tables, id: Id)
    requires ReviewsOk(db.history, db.reviews) && SuggestionsOk(db.history, db.suggestions) && FeedbackOk(db.history, db.reviews, db.feedback)
    requires HistoryKept(db.history, Purged(db, id).history)
    ensures var db' := Purged(db, id);
      && ReviewsOk(db'.history, db'.reviews) && ReviewsKept(db.history, db.reviews, db'.reviews)
      && SuggestionsOk(db'.history, db'.suggestions) && SuggestionsKept(db.suggestions, db'.history, db'.suggestions)
      && FeedbackOk(db'.history, db'.reviews, db'.feedback) && FeedbackKept(db.feedback, db'.reviews, db'.feedback)
  {
    hide HistoryKept, ReviewsOk, SuggestionsOk, FeedbackOk, ReviewsKept, SuggestionsKept, FeedbackKept;
    var db' := Purged(db, id);
    InHistory(db);
    ReviewsStay(db.history, db.reviews, db'.history, db'.reviews);
    SuggestionsStay(db.history, db.suggestions, db'.history, db'.suggestions);
    FeedbackStays(db.history, db.reviews, db.feedback, db'.history, db'.reviews, db'.feedback);
  }

  lemma PurgedHistory(db: Tables, id: Id)
    requires HistoryOk(db.pages, db.history)
    ensures HistoryKept(db.history, Purged(db, id).history) && HistoryOk(Purged(db, id).pages, Purged(db, id).history)
  {
    hide HeadAgrees;
  }

  lemma PurgedPaths(db: Tables, id: Id)
    requires PathsOk(db.pages, db.aliases)
    ensures PathsOk(Purged(db, id).pages, Purged(db, id).aliases)
    ensures PathsKept(db.pages, db.aliases, Purged(db, id).pages, Purged(db, id).aliases)
  {
  }

  // ---- reviews

  lemma ReviewPutOk(history: History, reviews: Reviews, id: Id, review: Review)
    requires ReviewsOk(history, reviews) && id in reviews && ReviewKept(history, reviews[id], review)
    requires review.status.Pending? ==> reviews[id].status.Pending?
    ensures ReviewsOk(history, reviews[id := review]) && ReviewsKept(history, reviews, reviews[id := review])
  {
  }

  /** A review whose status makes progress. */
  lemma PutReviewKeeps(db: Tables, id: Id, review: Review, now: Time)
    requires Inv(db) && id in db.reviews && ReviewKept(db.history, db.reviews[id], review)
    requires review.status.Pending? ==> db.reviews[id].status.Pending?
    ensures Keeps(db, PutReview(db, id, review), now)
  {
    hide PathsOk, HistoryOk, ReviewsOk, SuggestionsOk, FeedbackOk, ReviewsKept, SuggestionsKept, FeedbackKept;
    var db' := PutReview(db, id, review);
    KeptSelf(db, now);
    InHistory(db);
    ReviewPutOk(db.history, db.reviews, id, review);
    FeedbackStays(db.history, db.reviews, db.feedback, db.history, db'.reviews, db.feedback);
  }

  lemma ClosedOk(history: History, reviews: Reviews, page: Id)
    requires ReviewsOk(history, reviews)
    ensures ReviewsOk(history, Closed(reviews, page)) && ReviewsKept(history, reviews, Closed(reviews, page))
  {
  }

  lemma SupersedeKeeps(db: Tables, page: Id, now: Time)
    requires Inv(db)
    ensures Keeps(db, Supersede(db, page), now)
  {
    hide PathsOk, HistoryOk, ReviewsOk, SuggestionsOk, FeedbackOk, ReviewsKept, SuggestionsKept, FeedbackKept;
    KeptSelf(db, now);
    InHistory(db);
    ClosedOk(db.history, db.reviews, page);
    FeedbackStays(db.history, db.reviews, db.feedback, db.history, Supersede(db, page).reviews, db.feedback);
  }

  lemma OpenedOk(history: History, reviews: Reviews, id: Id, review: Review)
    requires ReviewsOk(history, reviews) && id !in reviews && IsCurrent(history, review) && 1 <= review.revision
    requires !HasPending(reviews, review.page)
    ensures ReviewsOk(history, reviews[id := review]) && ReviewsKept(history, reviews, reviews[id := review])
  {
  }

  lemma OpenReviewKeeps(db: Tables, review: Review, now: Time)
    requires Inv(db) && IsCurrent(db.history, review) && 1 <= review.revision && !HasPending(db.reviews, review.page)
    ensures Keeps(db, Numbered(PutReview(db, db.nextId, review)), now)
  {
    hide PathsOk, HistoryOk, ReviewsOk, SuggestionsOk, FeedbackOk, ReviewsKept, SuggestionsKept, FeedbackKept, IsCurrent, HasPending;
    var db' := Numbered(PutReview(db, db.nextId, review));
    KeptSelf(db, now);
    InHistory(db);
    assert db.nextId !in db.reviews;
    OpenedOk(db.history, db.reviews, db.nextId, review);
    FeedbackStays(db.history, db.reviews, db.feedback, db.history, db'.reviews, db.feedback);
  }

  // ---- suggestions

  lemma AddSuggestionKeeps(db: Tables, s: Suggestion, now: Time)
    requires Inv(db) && Captured(db.history, s) && !s.applied
    ensures Keeps(db, Numbered(PutSuggestion(db, db.nextId, s)), now)
  {
    hide PathsOk, HistoryOk, ReviewsOk, FeedbackOk, ReviewsKept, FeedbackKept, AppliedOnce, Captured;
    KeptSelf(db, now);
    assert db.nextId !in db.suggestions;
  }

  /** An inline suggestion marked in the state that its own revision made. */
  lemma MarkSuggestionKeeps(db: Tables, id: Id, now: Time)
    requires Inv(db) && id in db.suggestions && Captured(db.history, db.suggestions[id]) && AppliedOnce(db.history, db.suggestions[id])
    requires forall d :: d in db.suggestions && db.suggestions[d].applied && db.suggestions[d].page == db.suggestions[id].page ==> db.suggestions[d].revision != db.suggestions[id].revision
    ensures Keeps(db, PutSuggestion(db, id, db.suggestions[id].(applied := true)), now)
  {
    hide PathsOk, HistoryOk, ReviewsOk, FeedbackOk, ReviewsKept, FeedbackKept;
    KeptSelf(db, now);
  }

  // ---- review suggestions

  lemma AddedFeedbackOk(history: History, reviews: Reviews, feedback: Comments, id: Id, f: Feedback)
    requires FeedbackOk(history, reviews, feedback) && id !in feedback && f.request in reviews && !f.applied
    ensures FeedbackOk(history, reviews, feedback[id := f]) && FeedbackKept(feedback, reviews, feedback[id := f])
  {
    hide Outcome;
    var feedback' := feedback[id := f];
    forall g | g in feedback' && feedback'[g].applied
      ensures AppliedAsBatch(history, reviews[feedback'[g].request], feedback', feedback'[g].request)
    {
      var r := feedback[g].request;
      assert AppliedAsBatch(history, reviews[r], feedback, r);
      var ids :| IsBatch(history, reviews[r], feedback, r, ids);
      SameBatch(history, reviews[r], feedback, feedback', r, ids);
    }
  }

  /** A batch depends only on the review's applied suggestions. */
  lemma SameBatch(history: History, review: Review, feedback: Comments, feedback': Comments, id: Id, ids: seq<int>)
    requires IsBatch(history, review, feedback, id, ids)
    requires forall f :: IsApplied(feedback', id, f) <==> IsApplied(feedback, id, f)
    requires forall f :: IsApplied(feedback, id, f) ==> f in feedback' && feedback'[f] == feedback[f]
    ensures IsBatch(history, review, feedback', id, ids)
  {
    hide Outcome;
    forall k | 0 <= k < |ids|
      ensures ids[k] in feedback && ids[k] in feedback' && feedback'[ids[k]] == feedback[ids[k]]
    {
      assert IsApplied(feedback, id, ids[k]);
    }
    assert EditsOf(feedback', ids) == EditsOf(feedback, ids);
  }

  lemma AddFeedbackKeeps(db: Tables, f: Feedback, now: Time)
    requires Inv(db) && f.request in db.reviews && !f.applied
    ensures Keeps(db, Numbered(db.(feedback := db.feedback[db.nextId := f])), now)
  {
    hide PathsOk, HistoryOk, ReviewsOk, SuggestionsOk, FeedbackOk, ReviewsKept, SuggestionsKept, FeedbackKept;
    KeptSelf(db, now);
    assert db.nextId !in db.feedback;
    AddedFeedbackOk(db.history, db.reviews, db.feedback, db.nextId, f);
  }

  /** The selection that a batch applies, in the state that its own revision made. */
  ghost predicate IsSelection(db: Tables, review: Id, ids: seq<int>, open: set<Id>) {
    && review in db.reviews && db.reviews[review].status.Superseded?
    && Distinct(ids) && (forall k :: 0 <= k < |ids| ==> ids[k] in open) && (forall i :: i in open ==> i in ids)
    && (forall i :: i in open ==> i in db.feedback && db.feedback[i].request == review)
    && (forall f :: !IsApplied(db.feedback, review, f))
    && var row := db.reviews[review];
       && row.page in db.history && 1 <= row.revision < |db.history[row.page]|
       && Outcome(db.history[row.page][row.revision - 1].markdown, multiset(EditsOf(db.feedback, ids))) == Ok(db.history[row.page][row.revision].markdown)
  }

  lemma MarkedIsBatch(db: Tables, review: Id, ids: seq<int>, open: set<Id>)
    requires IsSelection(db, review, ids, open)
    ensures IsBatch(db.history, db.reviews[review], MarkFeedback(db, review, open).feedback, review, ids)
  {
    hide Outcome;
    var feedback' := MarkFeedback(db, review, open).feedback;
    forall f | IsApplied(feedback', review, f)
      ensures f in ids
    {
      assert !IsApplied(db.feedback, review, f);
    }
    forall k | 0 <= k < |ids|
      ensures ids[k] in db.feedback && feedback'[ids[k]].edit == db.feedback[ids[k]].edit && IsApplied(feedback', review, ids[k])
    {
      var i := ids[k];
      assert i in open;
    }
    assert EditsOf(feedback', ids) == EditsOf(db.feedback, ids);
  }

  lemma MarkedFeedbackOk(db: Tables, review: Id, ids: seq<int>, open: set<Id>)
    requires FeedbackOk(db.history, db.reviews, db.feedback) && IsSelection(db, review, ids, open)
    ensures var feedback' := MarkFeedback(db, review, open).feedback;
      FeedbackOk(db.history, db.reviews, feedback') && FeedbackKept(db.feedback, db.reviews, feedback')
  {
    hide IsBatch, IsSelection, Outcome;
    var feedback' := MarkFeedback(db, review, open).feedback;
    MarkedIsBatch(db, review, ids, open);
    NoneApplied(db, review, ids, open);
    forall f | f in feedback' && feedback'[f].applied
      ensures db.reviews[feedback'[f].request].status.Superseded?
      ensures AppliedAsBatch(db.history, db.reviews[feedback'[f].request], feedback', feedback'[f].request)
    {
      var r := db.feedback[f].request;
      if r != review {
        assert AppliedAsBatch(db.history, db.reviews[r], db.feedback, r);
        var batch :| IsBatch(db.history, db.reviews[r], db.feedback, r, batch);
        SameBatch(db.history, db.reviews[r], db.feedback, feedback', r, batch);
      }
    }
  }

  lemma NoneApplied(db: Tables, review: Id, ids: seq<int>, open: set<Id>)
    requires IsSelection(db, review, ids, open)
    ensures review in db.reviews && db.reviews[review].status.Superseded?
    ensures forall f :: f in db.feedback && db.feedback[f].request == review ==> !db.feedback[f].applied
  {
    forall f | f in db.feedback && db.feedback[f].request == review
      ensures !db.feedback[f].applied
    {
      assert !IsApplied(db.feedback, review, f);
    }
  }

  lemma MarkFeedbackKeeps(db: Tables, review: Id, ids: seq<int>, open: set<Id>, now: Time)
    requires Inv(db) && IsSelection(db, review, ids, open)
    ensures Keeps(db, MarkFeedback(db, review, open), now)
  {
    hide PathsOk, HistoryOk, ReviewsOk, SuggestionsOk, FeedbackOk, ReviewsKept, SuggestionsKept, FeedbackKept, IsSelection;
    KeptSelf(db, now);
    MarkedFeedbackOk(db, review, ids, open);
  }

  lemma SetLinksKeeps(db: Tables, links: set<LinkRow>, now: Time)
    requires Inv(db) && LinksOk(db.pages, links)
    ensures Keeps(db, db.(links := links), now)
  {
    hide PathsOk, HistoryOk, ReviewsOk, SuggestionsOk, FeedbackOk, ReviewsKept, SuggestionsKept, FeedbackKept;
    KeptSelf(db, now);
  }
}
