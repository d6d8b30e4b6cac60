/**
 What saves, reviews and suggestions do, told from the request and the tables before them: what the
 saved page holds, whose status changes, what text an applied suggestion yields.
 */
module PageEffects {
  import opened Options
  import opened TextScan
  import opened WikiLinks
  import opened ReviewEdits
  import opened PageTables
  import opened PageCommands
  import opened PageInvariant
  import opened PageRuns
  import opened PageLaws
  import opened PageStatements

  // ---- saves

  /** The path that a save looks its page up by: the former one without white space around it, or the new one. */
  lemma LooksUp(input: SaveInput, a: string, former: string, b: string)
    requires Padded(input.previous, a, former, b)
    ensures LookupSlug(input) == if former != "" then former else input.slug
  {
    hide TrimSpace, Padded;
    TrimSpaceIs(input.previous, former);
  }

  /** The page that a save edits, or the id of the page that it creates. */
  ghost function SavedId(db: Tables, input: SaveInput): Id {
    var found := PageAt(db.pages, LookupSlug(input));
    if found.Some? then found.value else db.nextId
  }

  /** Something that a revision records is not as before. */
  ghost predicate Differs(db: Tables, input: SaveInput, now: Time, id: Id) {
    id in db.pages ==>
      || db.pages[id].slug != input.slug || db.pages[id].details != input.details || db.pages[id].status != input.status
      || db.pages[id].markdown != input.markdown || (input.reviewed && db.pages[id].reviewedAt != Some(now))
  }

  /** The saved page holds what the request says, whether it was there before or not. */
  ghost predicate HoldsInput(db: Tables, input: SaveInput, now: Time, id: Id, page: Page) {
    && page.slug == input.slug && page.details == input.details && page.status == input.status
    && page.markdown == input.markdown && page.render == input.render && !page.binned
    && page.reviewedAt == (if input.reviewed then Some(now) else if id in db.pages then db.pages[id].reviewedAt else None)
    && page.updatedAt == (if Differs(db, input, now, id) then now else db.pages[id].updatedAt)
  }

  ghost predicate OthersKept(before: Pages, after: Pages, id: Id) {
    && (forall i :: i != id ==> (i in after <==> i in before))
    && (forall i :: i != id && i in before && i in after ==> after[i] == before[i])
  }

  /** One more revision of the page if something differs, and no other change to any history. */
  ghost predicate HistoryAfter(before: History, after: History, id: Id, changed: bool, markdown: string) {
    && after.Keys == before.Keys + {id}
    && (forall i :: i != id && i in before && i in after ==> after[i] == before[i])
    && id in after && after[id] == Rows(before, id) + if changed then [Revision(|Rows(before, id)| + 1, markdown)] else []
  }

  ghost predicate LinksAfter(before: set<LinkRow>, after: set<LinkRow>, id: Id, targets: seq<string>) {
    forall l :: l in after <==> if l.source == id then l.target in targets else l in before
  }

  lemma SetLinksAre(db: Tables, id: Id, targets: seq<string>)
    ensures LinksAfter(db.links, SetLinks(db, id, Elements(targets)).links, id, targets)
  {
    var links := SetLinks(db, id, Elements(targets)).links;
    forall l
      ensures l in links <==> if l.source == id then l.target in targets else l in db.links
    {
      if l.source == id && l.target in targets {
        assert LinkRow(id, l.target) in links;
      }
    }
  }

  /** The last statements of a save, for the row that it has written. */
  lemma Finished(db: Tables, before: Page, id: Id, targets: seq<string>)
    requires id in db.pages && id in db.history && Current(db.history, id) == |db.history[id]|
    ensures var db', after := FinishedSave(db, Some(before), id, Elements(targets)), db.pages[id];
      var changed := !SameContent(before, after);
      && db'.pages == db.pages[id := if changed then after else after.(updatedAt := before.updatedAt)]
      && db'.history == (if changed then db.history[id := db.history[id] + [Revision(|db.history[id]| + 1, after.markdown)]] else db.history)
      && db'.links == SetLinks(db, id, Elements(targets)).links && db'.aliases == db.aliases
  {
    hide Current, SameContent, Elements, Closed;
    assert db.pages == db.pages[id := db.pages[id]];
  }

  lemma EditStores(db: Tables, now: Time, input: SaveInput, id: Id)
    requires Inv(db) && id in db.pages && !db.pages[id].binned && EditPage(db, id, input, now).Done?
    ensures var db' := EditPage(db, id, input, now).tables;
      && id in db'.pages && HoldsInput(db, input, now, id, db'.pages[id]) && OthersKept(db.pages, db'.pages, id)
      && HistoryAfter(db.history, db'.history, id, Differs(db, input, now, id), input.markdown)
      && LinksAfter(db.links, db'.links, id, input.links)
  {
    hide Inv, EditPage, Taken, FinishedSave, SetLinks, Elements, LinksAfter, Current, MovedAliases;
    EditFree(db, id, input, now);
    EditStatements(db, id, input, now);
    CurrentIs(db, id);
    var written := WrittenRow(db, id, input, now);
    Finished(written, db.pages[id], id, input.links);
    SetLinksAre(written, id, input.links);
  }

  lemma EditFree(db: Tables, id: Id, input: SaveInput, now: Time)
    requires id in db.pages && EditPage(db, id, input, now).Done?
    ensures db.pages[id].slug == input.slug || !Taken(db.pages, db.aliases, id, input.slug)
  {
    hide Taken, Write, Moved;
  }

  lemma InsertStores(db: Tables, now: Time, input: SaveInput)
    requires Inv(db) && InsertPage(db, input, now).Done?
    ensures var db', id := InsertPage(db, input, now).tables, db.nextId;
      && id !in db.pages && id in db'.pages && HoldsInput(db, input, now, id, db'.pages[id]) && OthersKept(db.pages, db'.pages, id)
      && HistoryAfter(db.history, db'.history, id, true, input.markdown)
      && LinksAfter(db.links, db'.links, id, input.links)
  {
    hide PathsOk, ReviewsOk, SuggestionsOk, FeedbackOk, LinksOk, SetLinks, Elements, LinksAfter, PageAt;
    var id := db.nextId;
    SetLinksAre(Created(db, NewPage(input, now)), id, input.links);
    SetLinksRest(Created(db, NewPage(input, now)), id, Elements(input.links));
    SameKeys(db);
    assert id !in db.pages && id !in db.history;
  }

  lemma SetLinksRest(db: Tables, id: Id, targets: set<string>)
    ensures SetLinks(db, id, targets).(links := db.links) == db
  {
  }

  /** What the tables hold after a save. */
  lemma SaveStores(db: Tables, now: Time, input: SaveInput)
    requires Inv(db) && SaveResult(db, now, input).Done?
    ensures var db', id := SaveResult(db, now, input).tables, SavedId(db, input);
      && id in db'.pages && HoldsInput(db, input, now, id, db'.pages[id]) && OthersKept(db.pages, db'.pages, id)
      && HistoryAfter(db.history, db'.history, id, Differs(db, input, now, id), input.markdown)
      && LinksAfter(db.links, db'.links, id, input.links)
  {
    hide Inv, EditPage, InsertPage, HoldsInput, OthersKept, HistoryAfter, LinksAfter, LookupSlug;
    match PageAt(db.pages, LookupSlug(input)) {
      case None => InsertStores(db, now, input);
      case Some(id) => EditStores(db, now, input, id);
    }
  }

  /** Some other page has the requested path, or had it before. */
  ghost predicate PathBelongs(db: Tables, input: SaveInput, id: Id) {
    exists i :: i != id && Owns(db.pages, db.aliases, i, input.slug)
  }

  lemma OwnedByOther(db: Tables, id: Id, slug: string)
    requires PathsOk(db.pages, db.aliases)
    ensures Taken(db.pages, db.aliases, id, slug) <==> exists i :: i != id && Owns(db.pages, db.aliases, i, slug)
    ensures id !in db.pages ==> (Taken(db.pages, db.aliases, id, slug) <==> slug in db.aliases || PageAt(db.pages, slug).Some?)
  {
    hide PageAt;
    if Taken(db.pages, db.aliases, id, slug) {
      if slug in db.aliases && db.aliases[slug] != id {
        assert Owns(db.pages, db.aliases, db.aliases[slug], slug);
      } else {
        var i :| i != id && Holds(db.pages, i, slug);
        assert Owns(db.pages, db.aliases, i, slug);
        AtPath(db.pages, db.aliases, i);
      }
    }
    if PageAt(db.pages, slug).Some? {
      HoldsAt(db.pages, slug);
      assert Holds(db.pages, PageAt(db.pages, slug).value, slug);
    }
  }

  /** When a save succeeds, and which error it reports otherwise. */
  lemma SaveOutcome(db: Tables, now: Time, input: SaveInput)
    requires Inv(db)
    ensures var r, id := SaveResult(db, now, input), SavedId(db, input);
      && (r == Failed(Invalid) <==> input.details.interval < 0)
      && (r == Failed(PageInBin) <==> input.details.interval >= 0 && id in db.pages && db.pages[id].binned)
      && (r == Failed(AlreadyExists) <==> input.details.interval >= 0 && !(id in db.pages && db.pages[id].binned) && PathBelongs(db, input, id))
      && (r.Done? || r in {Failed(Invalid), Failed(PageInBin), Failed(AlreadyExists)})
  {
    hide HistoryOk, ReviewsOk, SuggestionsOk, FeedbackOk, LinksOk, LookupSlug, Owns, Write, SetLinks, Moved, PathsOk, Taken;
    var id := SavedId(db, input);
    OwnedByOther(db, id, input.slug);
    if id in db.pages && db.pages[id].slug == input.slug {
      NotTakenFromItself(db, id);
    }
  }

  lemma NotTakenFromItself(db: Tables, id: Id)
    requires PathsOk(db.pages, db.aliases) && id in db.pages
    ensures !Taken(db.pages, db.aliases, id, db.pages[id].slug)
  {
  }

  /** An import of two lists is the one import after the other, or the first error. */
  lemma {:induction false} ImportSplits(db: Tables, now: Time, first: seq<SaveInput>, second: seq<SaveInput>)
    ensures ImportResult(db, now, []) == Done(db)
    ensures forall input :: ImportResult(db, now, [input]) == SaveResult(db, now, input)
    ensures ImportResult(db, now, first + second) ==
      match ImportResult(db, now, first)
      case Failed(e) => Failed(e)
      case Done(next) => ImportResult(next, now, second)
    decreases |first|
  {
    hide SaveResult;
    if first == [] {
      assert first + second == second;
    } else {
      assert (first + second)[1..] == first[1..] + second;
      if SaveResult(db, now, first[0]).Done? {
        ImportSplits(SaveResult(db, now, first[0]).tables, now, first[1..], second);
      }
    }
  }

  // ---- decisions

  /** One page row replaced, and nothing else in the tables but reviews. */
  ghost predicate OnlyPage(db: Tables, db': Tables, id: Id, page: Page) {
    db' == db.(pages := db.pages[id := page], reviews := db'.reviews)
  }

  ghost predicate OnlyReview(before: Reviews, after: Reviews, id: Id, row: Review) {
    after == before[id := row]
  }

  /** An approval verifies the page as of now; a request for changes leaves the page alone. */
  lemma DecisionTakesEffect(db: Tables, now: Time, review: Id, slug: string, user: Id, groups: set<int>, admin: bool, decision: Decision)
    requires DecideResult(db, now, review, slug, user, groups, admin, decision).Done?
    ensures var db' := DecideResult(db, now, review, slug, user, groups, admin, decision).tables;
      review in db.reviews && db.reviews[review].page in db.pages
      && var id := db.reviews[review].page;
      && db.pages[id].slug == slug && !db.pages[id].binned
      && (decision.Approve? ==>
            && OnlyPage(db, db', id, db.pages[id].(status := Verified, reviewedAt := Some(now), updatedAt := now))
            && OnlyReview(db.reviews, db'.reviews, review, db.reviews[review].(status := Approved)))
      && (decision.RequestChanges? ==>
            && db'.pages == db.pages && OnlyReview(db.reviews, db'.reviews, review, db.reviews[review].(status := ChangesRequested)))
  {
    hide PageAt, Current, Assigned;
  }

  /** A canceled review gives back the status it found, if its revision is current and the page still a draft. */
  lemma CancelGivesBack(db: Tables, now: Time, review: Id, slug: string)
    requires Inv(db) && CancelResult(db, now, review, slug).Done?
    ensures var db' := CancelResult(db, now, review, slug).tables;
      review in db.reviews && db.reviews[review].page in db.pages && db.reviews[review].page in db.history
      && var row, page := db.reviews[review], db.pages[db.reviews[review].page];
      && OnlyReview(db.reviews, db'.reviews, review, row.(status := Canceled))
      && (if row.revision == |db.history[row.page]| && page.status.Draft?
          then OnlyPage(db, db', row.page, page.(status := row.previous, updatedAt := now))
          else db'.pages == db.pages)
  {
    hide PageAt, Current, Inv;
    CurrentIs(db, ReviewedPage(db, review, slug).value);
  }

  // ---- inline suggestions

  /** The text of an inline suggestion. */
  ghost predicate SuggestionAt(s: Suggestion, text: string, before: string, after: string) {
    text == before + s.original + after && s.start == |before| && s.end == |before| + |s.original| && s.original != ""
  }

  /**
   Applying a suggestion replaces its original by its replacement in the page's text; any other new
   text, and any text that does not hold the original there, is refused.
   */
  lemma SuggestionReplaces(db: Tables, now: Time, slug: string, comment: Id, markdown: string, render: string, links: seq<string>)
    requires Inv(db)
    ensures var r := ApplySuggestionResult(db, now, slug, comment, markdown, render, links);
      r.Done? <==>
        && LiveAt(db.pages, slug).Some? && comment in db.suggestions && db.suggestions[comment].page == LiveAt(db.pages, slug).value
        && var s, text := db.suggestions[comment], db.pages[db.suggestions[comment].page].markdown;
        && !s.applied && s.revision != 0 && s.revision == Current(db.history, s.page)
        && exists before, after :: SuggestionAt(s, text, before, after) && markdown == before + s.replacement + after
  {
    hide PageAt, Current, Inv, Updated;
    if LiveAt(db.pages, slug).Some? && comment in db.suggestions && db.suggestions[comment].page == LiveAt(db.pages, slug).value {
      var s := db.suggestions[comment];
      SpliceIs(s, db.pages[s.page].markdown, markdown);
    }
  }

  lemma SpliceIs(s: Suggestion, text: string, markdown: string)
    ensures MatchesSource(text, s) && markdown == Splice(text, s) <==>
      exists before, after :: SuggestionAt(s, text, before, after) && markdown == before + s.replacement + after
  {
    if MatchesSource(text, s) && markdown == Splice(text, s) {
      assert SuggestionAt(s, text, text[..s.start], text[s.end..]);
    }
    if before, after :| SuggestionAt(s, text, before, after) && markdown == before + s.replacement + after {
      assert text[..s.start] == before && text[s.start..s.end] == s.original && text[s.end..] == after;
    }
  }

  /** An applied update: the page's new text and artifact, one more revision, the new links, and open reviews closed. */
  ghost predicate UpdatesPage(db: Tables, db': Tables, now: Time, id: Id, markdown: string, render: string, links: seq<string>) {
    && id in db.pages && db'.pages == db.pages[id := db.pages[id].(markdown := markdown, render := render, updatedAt := now)]
    && HistoryAfter(db.history, db'.history, id, true, markdown) && LinksAfter(db.links, db'.links, id, links)
    && db'.reviews == Closed(db.reviews, id) && db'.aliases == db.aliases
  }

  lemma UpdatedIs(db: Tables, now: Time, id: Id, markdown: string, render: string, links: seq<string>)
    requires Inv(db) && id in db.pages
    ensures UpdatesPage(db, SetLinks(Updated(db, now, id, markdown, render), id, Elements(links)), now, id, markdown, render, links)
  {
    hide Inv, SetLinks, Closed, Elements, LinksAfter, Current;
    CurrentIs(db, id);
    var page := db.pages[id].(markdown := markdown, updatedAt := now, render := render);
    RevisedOne(db, id, page);
    SetLinksAre(Updated(db, now, id, markdown, render), id, links);
    SetLinksRest(Updated(db, now, id, markdown, render), id, Elements(links));
  }

  /** Nothing but the mark of the one suggestion changes among the suggestions. */
  lemma SuggestionApplied(db: Tables, now: Time, slug: string, comment: Id, markdown: string, render: string, links: seq<string>)
    requires Inv(db) && ApplySuggestionResult(db, now, slug, comment, markdown, render, links).Done?
    ensures var db' := ApplySuggestionResult(db, now, slug, comment, markdown, render, links).tables;
      && comment in db.suggestions && UpdatesPage(db, db', now, db.suggestions[comment].page, markdown, render, links)
      && db'.suggestions == db.suggestions[comment := db.suggestions[comment].(applied := true)] && db'.feedback == db.feedback
  {
    hide Inv, SetLinks, PageAt, Elements, Current, Updated, HistoryAfter, LinksAfter;
    var id := LiveAt(db.pages, slug).value;
    UpdatedIs(db, now, id, markdown, render, links);
    UpdatedRest(db, now, id, markdown, render);
    SetLinksRest(Updated(db, now, id, markdown, render), id, Elements(links));
    var marked := PutSuggestion(Updated(db, now, id, markdown, render), comment, db.suggestions[comment].(applied := true));
    SetLinksRest(marked, id, Elements(links));
    SetLinksOnly(marked, Updated(db, now, id, markdown, render), id, Elements(links));
  }

  lemma SetLinksOnly(db: Tables, db': Tables, id: Id, targets: set<string>)
    requires db.links == db'.links
    ensures SetLinks(db, id, targets).links == SetLinks(db', id, targets).links
  {
  }

  lemma UpdatedRest(db: Tables, now: Time, id: Id, markdown: string, render: string)
    requires id in db.pages
    ensures var db' := Updated(db, now, id, markdown, render); db'.suggestions == db.suggestions && db'.feedback == db.feedback && db'.links == db.links
  {
  }

  /** The batch of a review: the page's update, and the mark on exactly the requested suggestions. */
  lemma FeedbackApplied(db: Tables, now: Time, review: Id, slug: string, revision: nat, ids: seq<int>, all: bool, markdown: string, render: string, links: seq<string>)
    requires Inv(db) && ApplyFeedbackResult(db, now, review, slug, revision, ids, all, markdown, render, links).Done?
    ensures var db' := ApplyFeedbackResult(db, now, review, slug, revision, ids, all, markdown, render, links).tables;
      && review in db.reviews && UpdatesPage(db, db', now, db.reviews[review].page, markdown, render, links)
      && db'.suggestions == db.suggestions && db'.feedback.Keys == db.feedback.Keys
      && (forall k :: 0 <= k < |ids| ==> ids[k] in db.feedback)
      && forall f :: f in db.feedback ==> db'.feedback[f] == if f in ids then db.feedback[f].(applied := true) else db.feedback[f]
  {
    hide Inv, SetLinks, PageAt, Elements, Current, Updated, HistoryAfter, LinksAfter, Outcome, Distinct;
    var id := ReviewedPage(db, review, slug).value;
    UpdatedIs(db, now, id, markdown, render, links);
    UpdatedRest(db, now, id, markdown, render);
    SetLinksRest(Updated(db, now, id, markdown, render), id, Elements(links));
    var marked := MarkFeedback(Updated(db, now, id, markdown, render), review, OpenFeedback(db.feedback, review, ids, all));
    SetLinksRest(marked, id, Elements(links));
    SetLinksOnly(marked, Updated(db, now, id, markdown, render), id, Elements(links));
  }

  /** Of a batch exactly the outcome of its edits is accepted as the new text. */
  lemma FeedbackText(db: Tables, now: Time, review: Id, slug: string, revision: nat, ids: seq<int>, all: bool, markdown: string, render: string, links: seq<string>)
    requires ApplyFeedbackResult(db, now, review, slug, revision, ids, all, markdown, render, links).Done?
    ensures review in db.reviews && db.reviews[review].page in db.pages && (forall k :: 0 <= k < |ids| ==> ids[k] in db.feedback)
    ensures Outcome(db.pages[db.reviews[review].page].markdown, multiset(EditsOf(db.feedback, ids))) == Ok(markdown)
  {
    hide PageAt, Elements, Current, Updated, Outcome, Distinct;
  }

  // ---- other rows

  lemma SuggestRow(db: Tables, slug: string, anchor: string, s: Suggestion, expected: string)
    requires SuggestResult(db, slug, anchor, s, expected).Done?
    ensures LiveAt(db.pages, slug).Some?
    ensures SuggestResult(db, slug, anchor, s, expected).tables ==
      db.(suggestions := db.suggestions[db.nextId := Suggestion(LiveAt(db.pages, slug).value, s.revision, s.start, s.end, s.original, s.replacement, false)],
          nextId := db.nextId + 1)
  {
    hide PageAt, Current;
  }

  /** A suggestion or a comment is stored as requested, open, under the next id. */
  lemma SuggestStores(db: Tables, now: Time, slug: string, anchor: string, revision: nat, start: int, end: int, original: string, replacement: string, seen: string)
    requires Attempt(db, now, Suggest(slug, anchor, revision, start, end, original, replacement, seen)).Done?
    ensures LiveAt(db.pages, slug).Some?
    ensures Attempt(db, now, Suggest(slug, anchor, revision, start, end, original, replacement, seen)).tables ==
      db.(suggestions := db.suggestions[db.nextId := Suggestion(LiveAt(db.pages, slug).value, revision, start, end, original, replacement, false)],
          nextId := db.nextId + 1)
  {
    hide SuggestResult, LiveAt;
    SuggestRow(db, slug, anchor, Suggestion(0, revision, start, end, original, replacement, false), seen);
  }

  lemma CommentStores(db: Tables, review: Id, slug: string, edit: Edit, body: string, isSuggestion: bool)
    requires CommentResult(db, review, slug, edit, body, isSuggestion).Done?
    ensures CommentResult(db, review, slug, edit, body, isSuggestion).tables ==
      db.(feedback := db.feedback[db.nextId := Feedback(review, isSuggestion, edit, false)], nextId := db.nextId + 1)
  {
    hide PageAt, Current;
  }

  /** An artifact is stored exactly on the page whose token is the expected one. */
  lemma RenderStored(db: Tables, page: Id, expected: Time, render: string)
    ensures var r := SaveRenderResult(db, page, expected, render);
      && r.Done?
      && (page in db.pages && db.pages[page].updatedAt == expected ==> r.tables == db.(pages := db.pages[page := db.pages[page].(render := render)]))
      && (page !in db.pages || db.pages[page].updatedAt != expected ==> r.tables == db)
  {
  }

  lemma BinHides(db: Tables, slug: string)
    requires Inv(db)
    ensures BinResult(db, slug).Done? <==> LiveAt(db.pages, slug).Some?
    ensures BinResult(db, slug).Done? ==>
      var db', id := BinResult(db, slug).tables, LiveAt(db.pages, slug).value;
      db' == db.(pages := db.pages[id := db.pages[id].(binned := true)]) && LiveAt(db'.pages, slug).None?
  {
    hide PageAt, HistoryOk, ReviewsOk, SuggestionsOk, FeedbackOk, LinksOk, IdsOk;
    if LiveAt(db.pages, slug).Some? {
      var id := LiveAt(db.pages, slug).value;
      var pages := db.pages[id := db.pages[id].(binned := true)];
      AtPath(pages, db.aliases, id);
    }
  }

  /** Nothing of a purged page is left, and everything of the other pages is. */
  lemma PurgeForgets(db: Tables, slug: string, id: Id)
    requires Inv(db) && PurgeResult(db, slug).Done? && BinnedAt(db.pages, slug) == Some(id)
    ensures var db' := PurgeResult(db, slug).tables;
      && (forall i :: i in db'.pages <==> i in db.pages && i != id) && (forall i :: i in db'.pages ==> db'.pages[i] == db.pages[i])
      && (forall i :: i in db'.history <==> i in db.history && i != id) && (forall i :: i in db'.history ==> db'.history[i] == db.history[i])
      && (forall s :: s in db'.aliases <==> s in db.aliases && db.aliases[s] != id) && (forall s :: s in db'.aliases ==> db'.aliases[s] == db.aliases[s])
      && (forall r :: r in db'.reviews <==> r in db.reviews && db.reviews[r].page != id) && (forall r :: r in db'.reviews ==> db'.reviews[r] == db.reviews[r])
      && (forall c :: c in db'.suggestions <==> c in db.suggestions && db.suggestions[c].page != id) && (forall c :: c in db'.suggestions ==> db'.suggestions[c] == db.suggestions[c])
      && (forall f :: f in db'.feedback <==> f in db.feedback && !(db.feedback[f].request in db.reviews && db.reviews[db.feedback[f].request].page == id))
      && (forall f :: f in db'.feedback ==> db'.feedback[f] == db.feedback[f])
      && (forall l :: l in db'.links <==> l in db.links && l.source != id)
  {
    hide PageAt, Inv;
  }

  /** The live page at a path, and the one in the bin. */
  lemma PagesAt(db: Tables, slug: string, id: Id)
    requires Inv(db)
    ensures LiveAt(db.pages, slug) == Some(id) <==> id in db.pages && db.pages[id].slug == slug && !db.pages[id].binned
    ensures BinnedAt(db.pages, slug) == Some(id) <==> id in db.pages && db.pages[id].slug == slug && db.pages[id].binned
  {
    hide PageAt, HistoryOk, ReviewsOk, SuggestionsOk, FeedbackOk, LinksOk, IdsOk;
    if id in db.pages {
      AtPath(db.pages, db.aliases, id);
    }
  }

  // ---- when requests succeed

  /** The live page at a path is the one that a review is about. */
  ghost predicate IsReviewOf(db: Tables, review: Id, slug: string) {
    review in db.reviews && LiveAt(db.pages, slug) == Some(db.reviews[review].page)
  }

  /** A conditional save is the save, if its token is that of the live page at the former path. */
  lemma SaveIfUnchangedOutcome(db: Tables, now: Time, expected: Option<Time>, input: SaveInput, a: string, former: string, b: string)
    requires Padded(input.previous, a, former, b)
    ensures var r, at := SaveIfUnchangedResult(db, now, expected, input), LiveAt(db.pages, former);
      && (r.Done? ==> r == SaveResult(db, now, input))
      && (r.Done? <==> former != "" && at.Some? && expected == Some(db.pages[at.value].updatedAt) && SaveResult(db, now, input).Done?)
      && (former != "" && at.Some? && expected.Some? && input.details.interval >= 0 && expected.value != db.pages[at.value].updatedAt ==>
            r == Failed(EditConflict(Current(db.history, at.value))))
  {
    hide TrimSpace, Padded, PageAt, Current, LookupSlug, EditPage, InsertPage;
    TrimSpaceIs(input.previous, former);
  }

  lemma RequestOutcome(db: Tables, now: Time, slug: string, reviewers: seq<Id>, group: int)
    ensures RequestResult(db, now, slug, reviewers, group).Done? <==>
      LiveAt(db.pages, slug).Some? && forall r :: r in db.reviews && db.reviews[r].page == LiveAt(db.pages, slug).value ==> !db.reviews[r].status.Pending?
  {
    hide PageAt, Current;
  }

  lemma UpdateOutcome(db: Tables, review: Id, slug: string, reviewers: seq<Id>, group: int)
    ensures var r := UpdateResult(db, review, slug, reviewers, group);
      && (r.Done? <==> IsReviewOf(db, review, slug) && db.reviews[review].status.Pending?)
      && (r.Done? ==> r.tables == db.(reviews := db.reviews[review := db.reviews[review].(reviewers := (set x | x in reviewers), group := group)]))
  {
    hide PageAt;
  }

  lemma CancelOutcome(db: Tables, now: Time, review: Id, slug: string)
    ensures CancelResult(db, now, review, slug).Done? <==> IsReviewOf(db, review, slug) && db.reviews[review].status.Pending?
  {
    hide PageAt, Current;
  }

  /** An assigned reviewer, a member of the assigned group or an administrator decides a pending review of the current revision. */
  lemma DecideOutcome(db: Tables, now: Time, review: Id, slug: string, user: Id, groups: set<int>, admin: bool, decision: Decision)
    requires Inv(db)
    ensures DecideResult(db, now, review, slug, user, groups, admin, decision) == Failed(NotFound) <==> !IsReviewOf(db, review, slug)
    ensures IsReviewOf(db, review, slug) ==> db.reviews[review].page in db.history
    ensures IsReviewOf(db, review, slug) ==>
      var r, row, current := DecideResult(db, now, review, slug, user, groups, admin, decision), db.reviews[review], |db.history[db.reviews[review].page]|;
      && (r == Failed(StaleReview) <==> row.status.Superseded? || row.revision != current)
      && (r == Failed(ReviewClosed) <==> row.revision == current && row.status in {ChangesRequested, Approved, Canceled})
      && (r == Failed(Forbidden) <==> row.revision == current && row.status.Pending? && !admin && user !in row.reviewers && (row.group == 0 || row.group !in groups))
      && (r.Done? <==> row.revision == current && row.status.Pending? && (admin || user in row.reviewers || (row.group != 0 && row.group in groups)))
  {
    hide PageAt, Current, Inv;
    if IsReviewOf(db, review, slug) {
      CurrentIs(db, db.reviews[review].page);
    }
  }

  lemma SuggestOutcome(db: Tables, slug: string, anchor: string, s: Suggestion, expected: string)
    ensures SuggestResult(db, slug, anchor, s, expected).Done? <==>
      && LiveAt(db.pages, slug).Some? && db.pages[LiveAt(db.pages, slug).value].markdown == expected && Current(db.history, LiveAt(db.pages, slug).value) == s.revision
      && !AllWhite(anchor) && s.revision > 0 && 0 <= s.start < s.end && s.original != ""
  {
    hide PageAt, Current, TrimSpace, AllWhite;
    BlankIsWhite(anchor);
  }

  lemma BlankIsWhite(s: string)
    ensures TrimSpace(s) == "" <==> AllWhite(s)
  {
    hide TrimSpace;
    TrimSpaceIs(s, "");
    if AllWhite(s) {
      assert Padded(s, s, "", "");
    }
    if a, b :| Padded(s, a, "", b) {
      assert s == a + b;
    }
  }

  lemma CommentOutcome(db: Tables, review: Id, slug: string, edit: Edit, body: string, isSuggestion: bool)
    ensures CommentResult(db, review, slug, edit, body, isSuggestion).Done? <==>
      && IsReviewOf(db, review, slug) && db.reviews[review].status.Pending? && db.reviews[review].revision == Current(db.history, db.reviews[review].page)
      && 0 < edit.start <= edit.end && (if isSuggestion then edit.newSide else body != "")
  {
    hide PageAt, Current;
  }

  /** Open suggestions of a review, each named once; with `all`, every one of them. */
  ghost predicate NamesOpen(db: Tables, review: Id, ids: seq<int>, all: bool) {
    && ids != [] && (forall i, j :: 0 <= i < j < |ids| ==> ids[i] != ids[j])
    && (forall k :: 0 <= k < |ids| ==> ids[k] > 0 && ids[k] in db.feedback && db.feedback[ids[k]].request == review && db.feedback[ids[k]].isSuggestion && !db.feedback[ids[k]].applied)
    && (all ==> forall f :: f in db.feedback && db.feedback[f].request == review && db.feedback[f].isSuggestion && !db.feedback[f].applied ==> f in ids)
  }

  lemma NamesOpenIs(db: Tables, review: Id, ids: seq<int>, all: bool)
    ensures NamesOpen(db, review, ids, all) <==> ids != [] && SameIds(ids, OpenFeedback(db.feedback, review, ids, all))
  {
    var open := OpenFeedback(db.feedback, review, ids, all);
    if ids != [] && SameIds(ids, open) && all {
      forall f | f in db.feedback && db.feedback[f].request == review && db.feedback[f].isSuggestion && !db.feedback[f].applied
        ensures f in ids
      {
        assert f in open;
      }
    }
  }

  /** A batch is applied exactly if it names open suggestions of a pending review of the current revision and brings their outcome. */
  lemma FeedbackOutcome(db: Tables, now: Time, review: Id, slug: string, revision: nat, ids: seq<int>, all: bool, markdown: string, render: string, links: seq<string>)
    ensures ApplyFeedbackResult(db, now, review, slug, revision, ids, all, markdown, render, links).Done? <==>
      && IsReviewOf(db, review, slug) && db.reviews[review].status.Pending? && db.reviews[review].revision == revision == Current(db.history, db.reviews[review].page)
      && NamesOpen(db, review, ids, all)
      && Outcome(db.pages[db.reviews[review].page].markdown, multiset(EditsOf(db.feedback, ids))) == Ok(markdown)
  {
    hide PageAt, Current, Updated, Outcome, SameIds, NamesOpen, SetLinks, Elements;
    NamesOpenIs(db, review, ids, all);
    if ids != [] && SameIds(ids, OpenFeedback(db.feedback, review, ids, all)) {
      OpenIsThere(db, review, ids, all);
    }
  }

  lemma OpenIsThere(db: Tables, review: Id, ids: seq<int>, all: bool)
    requires SameIds(ids, OpenFeedback(db.feedback, review, ids, all))
    ensures forall k :: 0 <= k < |ids| ==> ids[k] in db.feedback
  {
  }
}
