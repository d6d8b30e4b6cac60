/**
 The page store: each transaction as the ordered table statements it executes, committed at the end
 or rolled back at the first error, and proved equal to its atomic step.
 */
module PageStore {
  import opened Options
  import opened TextScan
  import opened WikiLinks
  import opened SqlLike
  import opened ReviewEdits
  import opened PageTables
  import opened PageCommands
  import opened PageInvariant
  import opened PageRuns
  import opened PageStatements
  import opened SuggestionIds

  /** How a sequence of statements that started in some state ended. */
  ghost predicate Yields(result: Result, error: Option<Error>, db: Tables) {
    result == match error case Some(e) => Failed(e) case None => Done(db)
  }

  ghost function Reported(result: Result): Option<Error> {
    match result
    case Done(_) => None
    case Failed(e) => Some(e)
  }

  /** One transaction: its whole effect and its report. */
  ghost predicate Transacted(before: Tables, after: Tables, now: Time, c: Command, error: Option<Error>) {
    after == After(before, now, c) && error == Reported(Attempt(before, now, c))
  }

  class Store {
    var pages: Pages
    var aliases: Aliases
    var history: History
    var reviews: Reviews
    var suggestions: Suggestions
    var feedback: Comments
    var links: set<LinkRow>
    var nextId: Id
    var issued: set<Time>

    function State(): Tables
      reads this
    {
      Tables(pages, aliases, history, reviews, suggestions, feedback, links, nextId, issued)
    }

    ghost predicate Valid()
      reads this
    {
      Inv(State()) && TokensOk(State())
    }

    constructor ()
      ensures Valid() && State() == Empty()
    {
      pages, aliases, history, reviews := map[], map[], map[], map[];
      suggestions, feedback, links, nextId, issued := map[], map[], {}, 1, {};
      new;
      hide Inv, TokensOk;
      EmptyIsOk();
    }

    // ---- transactions

    /** Commits, or restores the tables as they were when the transaction began. */
    method Finish(saved: Tables, now: Time, error: Option<Error>)
      modifies this
      ensures State() == if error.Some? then saved else Issue(old(State()), now)
    {
      if error.Some? {
        pages, aliases, history, reviews := saved.pages, saved.aliases, saved.history, saved.reviews;
        suggestions, feedback, links, nextId, issued := saved.suggestions, saved.feedback, saved.links, saved.nextId, saved.issued;
      } else {
        issued := issued + {now};
      }
    }

    // ---- statements

    /** The row at a path, in the bin or not. */
    method FindPage(slug: string) returns (r: Option<Id>)
      requires PathsOk(pages, aliases)
      ensures r == PageAt(pages, slug)
    {
      if id :| id in pages && pages[id].slug == slug {
        AtPath(pages, aliases, id);
        return Some(id);
      }
      return None;
    }

    method FindLivePage(slug: string) returns (r: Option<Id>)
      requires PathsOk(pages, aliases)
      ensures r == LiveAt(pages, slug)
    {
      r := FindPage(slug);
      if r.Some? && pages[r.value].binned {
        r := None;
      }
    }

    /** Rejects a path that another page has or had. */
    method ValidateDestination(id: Id, slug: string) returns (error: Option<Error>)
      ensures error == if Taken(pages, aliases, id, slug) then Some(AlreadyExists) else None
    {
      if other :| other in pages && other != id && pages[other].slug == slug {
        assert Holds(pages, other, slug);
        return Some(AlreadyExists);
      }
      if slug in aliases && aliases[slug] != id {
        return Some(AlreadyExists);
      }
      return None;
    }

    method RemoveCurrentSlugAlias(id: Id, slug: string)
      modifies this`aliases
      ensures aliases == WithoutAlias(old(aliases), id, slug)
    {
      if slug in aliases && aliases[slug] == id {
        aliases := aliases - {slug};
      }
    }

    /** Inserts an alias, or points an existing one at the page; `repointed` reports the second case. */
    method InsertAlias(slug: string, id: Id) returns (repointed: bool)
      modifies this`aliases
      ensures aliases == old(aliases)[slug := id] && repointed == (slug in old(aliases))
    {
      repointed := slug in aliases;
      aliases := aliases[slug := id];
    }

    method AppendRevision(id: Id, markdown: string)
      modifies this`history
      ensures history == Append(old(history), id, markdown)
    {
      var rows := Rows(history, id);
      history := history[id := rows + [Revision(Latest(rows) + 1, markdown)]];
    }

    method SupersedeReviews(id: Id)
      modifies this`reviews
      ensures reviews == Closed(old(reviews), id)
    {
      reviews := map r | r in reviews ::
        if reviews[r].page == id && reviews[r].status in {Pending, ChangesRequested} then reviews[r].(status := Superseded) else reviews[r];
    }

    method ReplaceLinks(id: Id, targets: seq<string>)
      modifies this`links
      ensures State() == SetLinks(old(State()), id, Elements(targets))
    {
      links := set l | l in links && l.source != id;
      var n := 0;
      while n < |targets|
        invariant 0 <= n <= |targets|
        invariant links == (set l | l in old(links) && l.source != id) + (set t | t in targets[..n] :: LinkRow(id, t))
      {
        assert targets[..n + 1] == targets[..n] + [targets[n]];
        links := links + {LinkRow(id, targets[n])};
        n := n + 1;
      }
      assert targets[..n] == targets;
    }

    // ---- saving

    /** Locks the edited page; a page in the bin cannot be edited. */
    method PreviousPage(input: SaveInput) returns (r: Option<Id>, error: Option<Error>)
      requires PathsOk(pages, aliases)
      ensures r == PageAt(pages, LookupSlug(input))
      ensures error == if r.Some? && pages[r.value].binned then Some(PageInBin) else None
    {
      r := FindPage(LookupSlug(input));
      error := if r.Some? && pages[r.value].binned then Some(PageInBin) else None;
    }

    method InsertRecord(now: Time, input: SaveInput) returns (id: Id, error: Option<Error>)
      requires PathsOk(pages, aliases)
      modifies this`pages, this`nextId
      ensures error == if input.slug in aliases || PageAt(old(pages), input.slug).Some? then Some(AlreadyExists) else None
      ensures error.Some? ==> State() == old(State())
      ensures error.None? ==> id == old(nextId) && nextId == id + 1 && pages == old(pages)[id := NewPage(input, now)]
    {
      id := nextId;
      if input.slug in aliases {
        return id, Some(AlreadyExists);
      }
      var taken := FindPage(input.slug);
      if taken.Some? {
        return id, Some(AlreadyExists);
      }
      pages := pages[id := NewPage(input, now)];
      nextId := nextId + 1;
      error := None;
    }

    /** Changes a page's path and keeps the path it leaves as an alias, which nothing else has. */
    method RenameRecord(id: Id, slug: Slug) returns (error: Option<Error>, repointed: bool)
      requires PathsOk(pages, aliases) && id in pages
      modifies this`pages, this`aliases
      ensures !repointed
      ensures error == if old(pages[id].slug) != slug && Taken(old(pages), old(aliases), id, slug) then Some(AlreadyExists) else None
      ensures error.Some? ==> State() == old(State())
      ensures error.None? ==> pages == old(pages)[id := old(pages[id]).(slug := slug)]
      ensures error.None? ==> aliases == if old(pages[id].slug) == slug then old(aliases) else MovedAliases(old(pages), old(aliases), map[id := slug])
    {
      repointed := false;
      var oldSlug := pages[id].slug;
      if oldSlug == slug {
        return None, repointed;
      }
      error := ValidateDestination(id, slug);
      if error.Some? {
        return;
      }
      RemoveCurrentSlugAlias(id, slug);
      pages := pages[id := pages[id].(slug := slug)];
      repointed := InsertAlias(oldSlug, id);
      OneMove(old(pages), old(aliases), id, slug);
    }

    /** Appends a revision if anything it records changed; always for a new page. */
    method PersistRevision(before: Option<Page>, id: Id) returns (changed: bool)
      requires id in pages
      modifies this`history
      ensures changed == !(before.Some? && SameContent(before.value, pages[id]))
      ensures history == if changed then Append(old(history), id, pages[id].markdown) else old(history)
    {
      if before.Some? && SameContent(before.value, pages[id]) {
        return false;
      }
      AppendRevision(id, pages[id].markdown);
      return true;
    }

    /** What follows the page row: links, the revision, and the token or the open reviews. */
    method FinishSave(now: Time, input: SaveInput, before: Option<Page>, id: Id)
      requires id in pages
      modifies this
      ensures State() == FinishedSave(old(State()), before, id, Elements(input.links))
    {
      hide SameContent, Append, Closed, Elements;
      ReplaceLinks(id, input.links);
      var changed := PersistRevision(before, id);
      if !changed {
        pages := pages[id := pages[id].(updatedAt := before.value.updatedAt)];
      } else {
        SupersedeReviews(id);
      }
    }

    method CreatePage(now: Time, input: SaveInput) returns (error: Option<Error>)
      requires Inv(State())
      modifies this
      ensures Yields(InsertPage(old(State()), input, now), error, State())
    {
      hide FinishedSave, Elements, PageAt, HistoryOk, ReviewsOk, SuggestionsOk, FeedbackOk, IdsOk, SetLinks, Created;
      InsertStatements(State(), input, now);
      var id;
      id, error := InsertRecord(now, input);
      if error.None? {
        FinishSave(now, input, None, id);
      }
    }

    method UpdatePage(now: Time, input: SaveInput, id: Id) returns (error: Option<Error>)
      requires Inv(State()) && id in pages
      modifies this
      ensures Yields(EditPage(old(State()), id, input, now), error, State())
    {
      hide FinishedSave, Elements, PathsOk, MovedAliases, Taken, HistoryOk, ReviewsOk, SuggestionsOk, FeedbackOk, IdsOk, EditPage, EditedPage;
      ghost var db := State();
      var before := pages[id];
      var repointed;
      error, repointed := RenameRecord(id, input.slug);
      if error.Some? {
        TakenEdit(db, id, input, now);
      } else {
        EditedRenamed(before, input, now);
        pages := pages[id := EditedPage(pages[id], input, now)];
        assert State() == WrittenRow(db, id, input, now);
        FinishSave(now, input, Some(before), id);
        EditStatements(db, id, input, now);
      }
    }

    method ExecuteSave(now: Time, input: SaveInput) returns (error: Option<Error>)
      requires Inv(State()) && input.details.interval >= 0
      modifies this
      ensures Yields(SaveResult(old(State()), now, input), error, State())
    {
      hide PathsOk, HistoryOk, ReviewsOk, SuggestionsOk, FeedbackOk, IdsOk, EditPage, InsertPage, PageAt;
      var previous;
      previous, error := PreviousPage(input);
      if error.Some? {
        return;
      }
      if previous.None? {
        error := CreatePage(now, input);
      } else {
        error := UpdatePage(now, input, previous.value);
      }
    }

    /** Creates a page or replaces its content, metadata and links. */
    method SavePage(now: Time, input: SaveInput) returns (error: Option<Error>)
      requires Valid() && now !in issued
      modifies this
      ensures Valid() && Transacted(old(State()), State(), now, Save(input), error)
    {
      hide Inv, TokensOk, SaveResult;
      AfterIsLater(State(), now, Save(input));
      var saved := State();
      error := ExecuteImportedSave(now, input);
      Finish(saved, now, error);
    }

    /** One save inside a transaction that the caller owns. */
    method ExecuteImportedSave(now: Time, input: SaveInput) returns (error: Option<Error>)
      requires Inv(State())
      modifies this
      ensures Yields(SaveResult(old(State()), now, input), error, State())
    {
      hide Inv, SaveResult;
      if input.details.interval < 0 {
        InvalidSave(State(), now, input);
        return Some(Invalid);
      }
      error := ExecuteSave(now, input);
    }

    method ExecuteImport(now: Time, inputs: seq<SaveInput>) returns (error: Option<Error>)
      requires Inv(State())
      modifies this
      ensures Yields(ImportResult(old(State()), now, inputs), error, State())
    {
      hide Inv, SaveResult;
      assert inputs[0..] == inputs;
      var n := 0;
      while n < |inputs|
        invariant 0 <= n <= |inputs| && Inv(State())
        invariant ImportResult(old(State()), now, inputs) == ImportResult(State(), now, inputs[n..])
      {
        hide ImportResult;
        ghost var at := State();
        ImportNext(at, now, inputs, n);
        error := ExecuteImportedSave(now, inputs[n]);
        if error.Some? {
          return;
        }
        SaveInv(at, now, inputs[n], State());
        n := n + 1;
      }
      return None;
    }

    /** Saves all imported pages in one transaction, or none. */
    method ImportPages(now: Time, inputs: seq<SaveInput>) returns (error: Option<Error>)
      requires Valid() && now !in issued
      modifies this
      ensures Valid() && Transacted(old(State()), State(), now, Import(inputs), error)
    {
      hide Inv, TokensOk, ImportResult;
      AfterIsLater(State(), now, Import(inputs));
      var saved := State();
      error := ExecuteImport(now, inputs);
      Finish(saved, now, error);
    }

    /** Locks the edited page and compares its version token. */
    method EnsureUnchanged(slug: string, expected: Time) returns (error: Option<Error>)
      requires PathsOk(pages, aliases)
      ensures error == match PageAt(pages, slug)
                       case None => Some(NotFound)
                       case Some(id) =>
                         if pages[id].binned then Some(PageInBin)
                         else if pages[id].updatedAt != expected then Some(EditConflict(Current(history, id)))
                         else None
    {
      var found := FindPage(slug);
      if found.None? {
        return Some(NotFound);
      }
      var id := found.value;
      if pages[id].binned {
        return Some(PageInBin);
      }
      if pages[id].updatedAt == expected {
        return None;
      }
      return Some(EditConflict(Latest(Rows(history, id))));
    }

    method ExecuteSaveIfUnchanged(now: Time, token: Option<Time>, input: SaveInput) returns (error: Option<Error>)
      requires Inv(State())
      modifies this
      ensures Yields(SaveIfUnchangedResult(old(State()), now, token, input), error, State())
    {
      hide HistoryOk, PathsOk, ReviewsOk, SuggestionsOk, FeedbackOk, IdsOk, SaveResult, PageAt, Current, TrimSpace;
      if token.None? || TrimSpace(input.previous) == "" || input.details.interval < 0 {
        return Some(Invalid);
      }
      error := EnsureUnchanged(TrimSpace(input.previous), token.value);
      if error.None? {
        error := ExecuteSave(now, input);
      }
    }

    /** Saves only if the page still carries the version token that the editor loaded. */
    method SavePageIfUnchanged(now: Time, token: Option<Time>, input: SaveInput) returns (error: Option<Error>)
      requires Valid() && now !in issued
      modifies this
      ensures Valid() && Transacted(old(State()), State(), now, SaveIfUnchanged(token, input), error)
    {
      hide Inv, TokensOk, SaveIfUnchangedResult;
      AfterIsLater(State(), now, SaveIfUnchanged(token, input));
      var saved := State();
      error := ExecuteSaveIfUnchanged(now, token, input);
      Finish(saved, now, error);
    }

    // ---- moving

    /** The selected rows with their destinations, the shortest paths first. */
    method LoadMovedPages(source: string, target: Slug, children: bool) returns (moved: seq<MovedPage>)
      ensures Loaded(moved, pages, Destinations(pages, source, target, children)) && ShortestFirst(moved)
    {
      hide IsSelected, Destination, LoadedBut, IsShortest, ShortestFirst, Loaded;
      var todo := set id | id in pages && IsSelected(pages[id], source, children);
      ghost var to := Destinations(pages, source, target, children);
      moved := [];
      NothingLoaded(pages, to, todo);
      while exists id :: id in todo
        invariant todo <= to.Keys && LoadedBut(moved, pages, to, todo)
        decreases todo
      {
        SomeShortest(pages, todo);
        var id :| id in todo && IsShortest(pages, todo, id);
        LoadNext(moved, pages, to, todo, id);
        moved := moved + [MovedPage(id, PathChange(pages[id].slug, Destination(pages[id].slug, source, target)))];
        todo := todo - {id};
      }
      LoadedAll(moved, pages, to, todo);
    }

    method ValidateDestinations(moved: seq<MovedPage>, ghost to: map<Id, Slug>) returns (error: Option<Error>)
      requires Loaded(moved, pages, to)
      ensures error == if SomeTaken(pages, aliases, to) then Some(AlreadyExists) else None
    {
      hide Taken;
      var n := 0;
      while n < |moved|
        invariant 0 <= n <= |moved|
        invariant forall k :: 0 <= k < n ==> !Taken(pages, aliases, moved[k].id, moved[k].path.new_)
      {
        assert Loads(moved[n], pages, to);
        error := ValidateDestination(moved[n].id, moved[n].path.new_);
        if error.Some? {
          return;
        }
        n := n + 1;
      }
      forall i | i in to
        ensures !Taken(pages, aliases, i, to[i])
      {
        var k :| 0 <= k < |moved| && moved[k].id == i;
        assert Loads(moved[k], pages, to);
      }
      return None;
    }

    /** One page row and its aliases; the unique path index rejects a destination taken meanwhile. */
    method MoveRow(now: Time, item: MovedPage) returns (error: Option<Error>, repointed: bool)
      requires item.id in pages
      modifies this`pages, this`aliases
      ensures error.Some? ==> error == Some(AlreadyExists) && exists other :: other != item.id && Holds(pages, other, item.path.new_)
      ensures error.None? ==> forall other :: other in old(pages) && other != item.id ==> old(pages)[other].slug != item.path.new_
      ensures error.Some? ==> pages == old(pages)
      ensures error.None? ==> pages == old(pages)[item.id := old(pages)[item.id].(slug := item.path.new_, updatedAt := now)]
      ensures error.None? ==> aliases == WithoutAlias(old(aliases), item.id, item.path.new_)[item.path.old_ := item.id]
      ensures repointed ==> error.None? && item.path.old_ in old(aliases)
    {
      repointed := false;
      RemoveCurrentSlugAlias(item.id, item.path.new_);
      if other :| other in pages && other != item.id && pages[other].slug == item.path.new_ {
        assert Holds(pages, other, item.path.new_);
        return Some(AlreadyExists), repointed;
      }
      pages := pages[item.id := pages[item.id].(slug := item.path.new_, updatedAt := now)];
      repointed := InsertAlias(item.path.old_, item.id);
      error := None;
    }

    /** Deepest paths first; the order does not matter for the result, and no alias is ever re-pointed. */
    method ApplyMoves(now: Time, moved: seq<MovedPage>, ghost to: map<Id, Slug>) returns (error: Option<Error>, repointed: bool)
      requires PathsOk(pages, aliases) && Loaded(moved, pages, to) && Free(pages, aliases, to)
      modifies this`pages, this`aliases
      ensures !repointed
      ensures error == if Injective(to) then None else Some(AlreadyExists)
      ensures error.None? ==> pages == MovedPages(old(pages), to, now) && aliases == MovedAliases(old(pages), old(aliases), to)
    {
      hide PathsOk, MovedAliases, MovedPages, WithoutAlias, Free;
      ghost var done: set<Id> := {};
      var n := |moved|;
      repointed := false;
      NothingMoved(pages, aliases, to, now);
      while n > 0
        invariant 0 <= n <= |moved| && !repointed
        invariant done == set k | n <= k < |moved| :: moved[k].id
        invariant CanMove(old(pages), old(aliases), Part(to, done))
        invariant pages == MovedPages(old(pages), Part(to, done), now)
        invariant aliases == MovedAliases(old(pages), old(aliases), Part(to, done))
      {
        n := n - 1;
        var item := moved[n];
        assert Loads(item, old(pages), to);
        assert item.id !in done;
        SamePages(old(pages), Part(to, done), now);
        var again;
        error, again := MoveRow(now, item);
        repointed := repointed || again;
        if error.Some? {
          ghost var other :| other != item.id && Holds(pages, other, item.path.new_);
          PathClash(old(pages), old(aliases), to, done, now, item.id, other);
          return;
        }
        NoPathClash(old(pages), old(aliases), to, done, now, item.id);
        NextMove(old(pages), old(aliases), to, done, item.id, now);
        done := done + {item.id};
      }
      AllMoved(moved, old(pages), to, done);
      error := None;
    }

    /** Link rows of moved pages; the row key rejects a source that links to both paths. */
    method RetargetLinks(moved: seq<MovedPage>, ghost m: map<string, string>) returns (error: Option<Error>)
      requires Spells(moved, m)
      modifies this`links
      ensures error == if LinkClash(old(links), m) then Some(Constraint) else None
      ensures error.None? ==> links == Retargeted(old(links), m)
    {
      ghost var done: set<string> := {};
      var n := 0;
      NothingRetargeted(links, m);
      while n < |moved|
        invariant 0 <= n <= |moved|
        invariant done == set k | 0 <= k < n :: moved[k].path.old_
        invariant links == Retargeted(old(links), Paths(m, done))
        invariant NoClash(old(links), m, done)
      {
        hide Retargeted, Apart, Paths, NoClash, LinkClash, Spells;
        SpelledRow(moved, m, n, done);
        var from, to := moved[n].path.old_, moved[n].path.new_;
        if l :| l in links && l.target == from && LinkRow(l.source, to) in links {
          ClashFound(old(links), m, done, from, l);
          return Some(Constraint);
        }
        NoClashNext(old(links), m, done, from);
        NextRetarget(old(links), m, done, from);
        links := set l | l in links :: if l.target == from then LinkRow(l.source, to) else l;
        done := done + {from};
        n := n + 1;
      }
      AllSpelled(moved, m, done);
      return None;
    }

    /** The rewriting passes of all moved pages over one text. */
    method RewriteTargets(markdown: string, moved: seq<MovedPage>, ghost m: map<string, string>) returns (updated: string)
      requires Spells(moved, m)
      ensures updated == Substitute(markdown, m)
    {
      hide Spells, Substitute, RewriteDirectTarget;
      updated := markdown;
      var n := 0;
      assert Changes(moved)[0..] == Changes(moved);
      while n < |moved|
        invariant 0 <= n <= |moved|
        invariant PageByPage(updated, Changes(moved)[n..]) == PageByPage(markdown, Changes(moved))
      {
        ghost var rest := Changes(moved)[n..];
        assert rest[0] == moved[n].path && rest[1..] == Changes(moved)[n + 1..];
        updated := RewriteDirectTarget(updated, moved[n].path.old_, moved[n].path.new_);
        n := n + 1;
      }
      SpelledSubstitution(moved, m, markdown);
    }

    /** The live pages with a `[[` whose text changes. */
    method CollectEdits(moved: seq<MovedPage>, ghost m: map<string, string>) returns (edits: map<Id, string>)
      requires Spells(moved, m)
      ensures forall i :: i in edits <==> i in pages && IsEdited(pages[i], m)
      ensures forall i :: i in edits ==> i in pages && edits[i] == Substitute(pages[i].markdown, m)
    {
      hide Spells, Substitute, HasOpening;
      var todo := set id | id in pages && !pages[id].binned && HasOpening(pages[id].markdown);
      edits := map[];
      forall i | i in pages && i !in todo
        ensures !IsEdited(pages[i], m)
      {
        if !pages[i].binned {
          NothingToRewrite(pages[i].markdown, m);
        }
      }
      while exists id :: id in todo
        invariant forall i :: i in todo ==> i in pages && !pages[i].binned
        invariant forall i :: i in edits <==> i in pages && i !in todo && IsEdited(pages[i], m)
        invariant forall i :: i in edits ==> i in pages && edits[i] == Substitute(pages[i].markdown, m)
        decreases todo
      {
        var id :| id in todo;
        var updated := RewriteTargets(pages[id].markdown, moved, m);
        if updated != pages[id].markdown {
          edits := edits[id := updated];
        }
        todo := todo - {id};
      }
    }

    method ApplyEdits(now: Time, edits: map<Id, string>, ghost rows: Pages)
      requires rows.Keys == edits.Keys && rows.Keys <= pages.Keys && history.Keys == pages.Keys
      requires forall i :: i in edits ==> rows[i] == pages[i].(markdown := edits[i], updatedAt := now)
      modifies this`pages, this`history
      ensures State() == Revised(old(State()), rows)
    {
      hide Revised, Append;
      ghost var db := State();
      var todo := edits.Keys;
      NothingRevised(db, rows);
      while exists id :: id in todo
        invariant todo <= edits.Keys
        invariant State() == Revised(db, RowsPart(rows, todo))
        decreases todo
      {
        var id :| id in todo;
        NextRevision(db, rows, todo, id);
        pages := pages[id := pages[id].(markdown := edits[id], updatedAt := now)];
        AppendRevision(id, edits[id]);
        todo := todo - {id};
      }
      assert RowsPart(rows, todo) == rows;
    }

    /** Rewrites direct links to the moved pages and records a revision for each changed page. */
    method RewriteIncoming(now: Time, moved: seq<MovedPage>, ghost m: map<string, string>)
      requires Spells(moved, m) && history.Keys == pages.Keys
      modifies this`pages, this`history
      ensures State() == Revised(old(State()), EditedPages(old(pages), m, now))
    {
      hide Revised, Spells, Substitute;
      var edits := CollectEdits(moved, m);
      ghost var rows := EditedPages(pages, m, now);
      EditsAreRows(pages, m, now, edits);
      ApplyEdits(now, edits, rows);
    }

    /** The writes of a move whose destinations are free. */
    method MoveRows(now: Time, moved: seq<MovedPage>, updateLinks: bool, ghost to: map<Id, Slug>) returns (error: Option<Error>)
      requires Inv(State()) && Loaded(moved, pages, to) && Free(pages, aliases, to)
      modifies this
      ensures var db := old(State());
        Yields(if !Injective(to) then Failed(AlreadyExists) else if LinkClash(db.links, PathMap(db.pages, to)) then Failed(Constraint)
               else Done(MoveAll(db, to, updateLinks, now)), error, State())
    {
      hide HistoryOk, ReviewsOk, SuggestionsOk, FeedbackOk, IdsOk, PathsOk, Loaded, Free, Injective, PathMap, MovedAliases, MovedPages, LinkClash, Retargeted, Revised, EditedPages, Spells;
      ghost var db := State();
      ghost var m := PathMap(pages, to);
      var repointed;
      error, repointed := ApplyMoves(now, moved, to);
      if error.Some? {
        return;
      }
      LoadedSpells(moved, db.pages, db.aliases, to);
      error := RetargetLinks(moved, m);
      if error.None? && updateLinks {
        SameKeys(db);
        SamePages(db.pages, to, now);
        RewriteIncoming(now, moved, m);
      }
    }

    method ExecuteMove(now: Time, from: string, target: Path, children: bool, updateLinks: bool) returns (error: Option<Error>)
      requires Inv(State())
      modifies this
      ensures Yields(MoveResult(old(State()), now, from, target, children, updateLinks), error, State())
    {
      hide HistoryOk, ReviewsOk, SuggestionsOk, FeedbackOk, IdsOk, PathsOk, Loaded, Free, Injective, PathMap, LinkClash, MoveAll, Destinations, SomeTaken, SourcePath;
      var source := SourcePath(from);
      if !Movable(source, target, children) {
        return Some(Invalid);
      }
      ghost var to := Destinations(pages, source, target, children);
      var moved := LoadMovedPages(source, target, children);
      NoneSelected(moved, pages, to);
      if moved == [] {
        return Some(NotFound);
      }
      error := ValidateDestinations(moved, to);
      if error.Some? {
        return;
      }
      DestinationsFree(pages, aliases, source, target, children);
      error := MoveRows(now, moved, updateLinks, to);
    }

    /** Moves a page, or a page tree, and optionally rewrites the links to what moved. */
    method MovePage(now: Time, source: string, target: Path, children: bool, updateLinks: bool) returns (error: Option<Error>)
      requires Valid() && now !in issued
      modifies this
      ensures Valid() && Transacted(old(State()), State(), now, Move(source, target, children, updateLinks), error)
    {
      hide Inv, TokensOk, MoveResult;
      AfterIsLater(State(), now, Move(source, target, children, updateLinks));
      var saved := State();
      error := ExecuteMove(now, source, target, children, updateLinks);
      Finish(saved, now, error);
    }

    method BulkMoveStep(now: Time, slug: string, target: Path) returns (error: Option<Error>)
      requires Inv(State())
      modifies this
      ensures Yields(BulkMoveOne(old(State()), now, slug, target), error, State())
    {
      hide Inv, MoveResult, SourcePath, IsSlug, Base, SlugChar;
      var source := SourcePath(slug);
      var destination := target + "/" + Base(source);
      if source == "" || source == destination {
        return Some(Invalid);
      }
      if !IsSlug(destination) {
        return Some(NotFound);
      }
      error := ExecuteMove(now, source, destination, false, true);
    }

    method ExecuteBulkMove(now: Time, slugs: seq<string>, target: Path) returns (error: Option<Error>)
      requires Inv(State()) && target != ""
      modifies this
      ensures Yields(BulkMoveFrom(old(State()), now, slugs, target), error, State())
    {
      hide Inv, BulkMoveOne;
      assert slugs[0..] == slugs;
      var n := 0;
      while n < |slugs|
        invariant 0 <= n <= |slugs| && Inv(State())
        invariant BulkMoveFrom(old(State()), now, slugs, target) == BulkMoveFrom(State(), now, slugs[n..], target)
      {
        hide BulkMoveFrom;
        ghost var at := State();
        BulkMoveNext(at, now, slugs, n, target);
        error := BulkMoveStep(now, slugs[n], target);
        if error.Some? {
          return;
        }
        BulkMoveInv(at, now, slugs[n], target, State());
        n := n + 1;
      }
      return None;
    }

    /** Moves the selected pages below one path, the longest paths first, all or none. */
    method BulkMovePages(now: Time, slugs: seq<string>, target: Path) returns (error: Option<Error>, ghost ordered: seq<string>)
      requires Valid() && now !in issued
      modifies this
      ensures Valid() && LongestFirst(slugs, ordered) && Transacted(old(State()), State(), now, BulkMove(ordered, target), error)
    {
      hide Inv, TokensOk, BulkMoveFrom, LongestFirst;
      var sorted := SortByLength(slugs);
      SortIsOrdered(slugs);
      ordered := sorted;
      AfterIsLater(State(), now, BulkMove(ordered, target));
      if target == "" {
        return Some(Invalid), ordered;
      }
      var saved := State();
      error := ExecuteBulkMove(now, sorted, target);
      Finish(saved, now, error);
    }

    // ---- the recycle bin

    method ExecuteDelete(slug: string) returns (error: Option<Error>)
      requires Inv(State())
      modifies this
      ensures Yields(BinResult(old(State()), slug), error, State())
    {
      hide HistoryOk, ReviewsOk, SuggestionsOk, FeedbackOk, IdsOk, PathsOk, LiveAt;
      var found := FindLivePage(slug);
      if found.None? {
        return Some(NotFound);
      }
      pages := pages[found.value := pages[found.value].(binned := true)];
      return None;
    }

    /** Moves a page to the recycle bin. */
    method DeletePage(now: Time, slug: string) returns (error: Option<Error>)
      requires Valid() && now !in issued
      modifies this
      ensures Valid() && Transacted(old(State()), State(), now, Bin(slug), error)
    {
      hide Inv, TokensOk, BinResult;
      AfterIsLater(State(), now, Bin(slug));
      var saved := State();
      error := ExecuteDelete(slug);
      Finish(saved, now, error);
    }

    method FindBinnedPage(slug: string) returns (r: Option<Id>)
      requires PathsOk(pages, aliases)
      ensures r == BinnedAt(pages, slug)
    {
      r := FindPage(slug);
      if r.Some? && !pages[r.value].binned {
        r := None;
      }
    }

    method ExecuteRestore(slug: string) returns (error: Option<Error>)
      requires Inv(State())
      modifies this
      ensures Yields(RestoreResult(old(State()), slug), error, State())
    {
      hide HistoryOk, ReviewsOk, SuggestionsOk, FeedbackOk, IdsOk, PathsOk, BinnedAt;
      var found := FindBinnedPage(slug);
      if found.None? {
        return Some(NotFound);
      }
      pages := pages[found.value := pages[found.value].(binned := false)];
      return None;
    }

    method RestorePage(now: Time, slug: string) returns (error: Option<Error>)
      requires Valid() && now !in issued
      modifies this
      ensures Valid() && Transacted(old(State()), State(), now, Restore(slug), error)
    {
      hide Inv, TokensOk, RestoreResult;
      AfterIsLater(State(), now, Restore(slug));
      var saved := State();
      error := ExecuteRestore(slug);
      Finish(saved, now, error);
    }

    method DeleteReviews(id: Id)
      modifies this`reviews, this`feedback
      ensures feedback == map f | f in old(feedback) && old(feedback)[f].request !in ReviewsOf(old(reviews), id) :: old(feedback)[f]
      ensures reviews == map r | r in old(reviews) && old(reviews)[r].page != id :: old(reviews)[r]
    {
      feedback := map f | f in feedback && feedback[f].request !in ReviewsOf(reviews, id) :: feedback[f];
      reviews := map r | r in reviews && reviews[r].page != id :: reviews[r];
    }

    /** Deletes a page row; every table that references it follows. */
    method DeleteRow(id: Id)
      modifies this
      ensures State() == Purged(old(State()), id)
    {
      DeleteReviews(id);
      suggestions := map c | c in suggestions && suggestions[c].page != id :: suggestions[c];
      aliases := map s | s in aliases && aliases[s] != id :: aliases[s];
      links := set l | l in links && l.source != id;
      history := history - {id};
      pages := pages - {id};
    }

    method ExecutePurge(slug: string) returns (error: Option<Error>)
      requires Inv(State())
      modifies this
      ensures Yields(PurgeResult(old(State()), slug), error, State())
    {
      hide HistoryOk, ReviewsOk, SuggestionsOk, FeedbackOk, IdsOk, PathsOk, BinnedAt, Purged;
      var found := FindBinnedPage(slug);
      if found.None? {
        return Some(NotFound);
      }
      DeleteRow(found.value);
      return None;
    }

    /** Deletes a page that is in the bin for good. */
    method PermanentlyDeletePage(now: Time, slug: string) returns (error: Option<Error>)
      requires Valid() && now !in issued
      modifies this
      ensures Valid() && Transacted(old(State()), State(), now, Purge(slug), error)
    {
      hide Inv, TokensOk, PurgeResult;
      AfterIsLater(State(), now, Purge(slug));
      var saved := State();
      error := ExecutePurge(slug);
      Finish(saved, now, error);
    }

    // ---- reviews

    /** The explicitly assigned reviewers; naming one twice is not an error. */
    method CollectReviewers(reviewers: seq<Id>) returns (r: set<Id>)
      ensures r == Elements(reviewers)
    {
      r := {};
      var n := 0;
      while n < |reviewers|
        invariant 0 <= n <= |reviewers| && r == Elements(reviewers[..n])
      {
        assert reviewers[..n + 1] == reviewers[..n] + [reviewers[n]];
        r := r + {reviewers[n]};
        n := n + 1;
      }
      assert reviewers[..n] == reviewers;
    }

    method ExecuteRequest(now: Time, slug: string, reviewers: seq<Id>, group: int) returns (error: Option<Error>)
      requires Inv(State())
      modifies this
      ensures Yields(RequestResult(old(State()), now, slug, reviewers, group), error, State())
    {
      hide HistoryOk, ReviewsOk, SuggestionsOk, FeedbackOk, IdsOk, PathsOk, LiveAt, Elements;
      var found := FindLivePage(slug);
      if found.None? {
        return Some(NotFound);
      }
      var id := found.value;
      var revision, previous := Latest(Rows(history, id)), pages[id].status;
      if r :| r in reviews && reviews[r].page == id && reviews[r].status.Pending? {
        return Some(ReviewPending);
      }
      var assignees := CollectReviewers(reviewers);
      reviews := reviews[nextId := Review(id, revision, Pending, previous, assignees, group)];
      nextId := nextId + 1;
      pages := pages[id := pages[id].(status := Draft, updatedAt := now)];
      return None;
    }

    /** Opens a review of the page's current revision; the pending index allows one at a time. */
    method RequestPageReview(now: Time, slug: string, reviewers: seq<Id>, group: int) returns (error: Option<Error>)
      requires Valid() && now !in issued
      modifies this
      ensures Valid() && Transacted(old(State()), State(), now, Request(slug, reviewers, group), error)
    {
      hide Inv, TokensOk, RequestResult;
      AfterIsLater(State(), now, Request(slug, reviewers, group));
      var saved := State();
      error := ExecuteRequest(now, slug, reviewers, group);
      Finish(saved, now, error);
    }

    /** Locks the page before its review row. */
    method LockReviewPage(review: Id, slug: string) returns (r: Option<Id>)
      requires PathsOk(pages, aliases)
      ensures r == ReviewedPage(State(), review, slug)
    {
      r := FindLivePage(slug);
      if r.Some? && !(review in reviews && reviews[review].page == r.value) {
        r := None;
      }
    }

    method ExecuteUpdate(review: Id, slug: string, reviewers: seq<Id>, group: int) returns (error: Option<Error>)
      requires Inv(State())
      modifies this
      ensures Yields(UpdateResult(old(State()), review, slug, reviewers, group), error, State())
    {
      hide HistoryOk, ReviewsOk, SuggestionsOk, FeedbackOk, IdsOk, PathsOk, ReviewedPage, Elements;
      var found := LockReviewPage(review, slug);
      if found.None? {
        return Some(NotFound);
      }
      if !reviews[review].status.Pending? {
        return Some(ReviewClosed);
      }
      var assignees := CollectReviewers(reviewers);
      reviews := reviews[review := reviews[review].(reviewers := assignees, group := group)];
      return None;
    }

    method UpdatePageReview(now: Time, review: Id, slug: string, reviewers: seq<Id>, group: int) returns (error: Option<Error>)
      requires Valid() && now !in issued
      modifies this
      ensures Valid() && Transacted(old(State()), State(), now, Update(review, slug, reviewers, group), error)
    {
      hide Inv, TokensOk, UpdateResult;
      AfterIsLater(State(), now, Update(review, slug, reviewers, group));
      var saved := State();
      error := ExecuteUpdate(review, slug, reviewers, group);
      Finish(saved, now, error);
    }

    method ExecuteCancel(now: Time, review: Id, slug: string) returns (error: Option<Error>)
      requires Inv(State())
      modifies this
      ensures Yields(CancelResult(old(State()), now, review, slug), error, State())
    {
      hide HistoryOk, ReviewsOk, SuggestionsOk, FeedbackOk, IdsOk, PathsOk, ReviewedPage;
      var found := LockReviewPage(review, slug);
      if found.None? {
        return Some(NotFound);
      }
      var id, row := found.value, reviews[review];
      var current := Latest(Rows(history, id));
      if !row.status.Pending? {
        return Some(ReviewClosed);
      }
      reviews := reviews[review := row.(status := Canceled)];
      if row.revision == current && pages[id].status.Draft? {
        pages := pages[id := pages[id].(status := row.previous, updatedAt := now)];
      }
      return None;
    }

    /** Closes a pending request and restores the page's earlier status while that is safe. */
    method CancelPageReview(now: Time, review: Id, slug: string) returns (error: Option<Error>)
      requires Valid() && now !in issued
      modifies this
      ensures Valid() && Transacted(old(State()), State(), now, Cancel(review, slug), error)
    {
      hide Inv, TokensOk, CancelResult;
      AfterIsLater(State(), now, Cancel(review, slug));
      var saved := State();
      error := ExecuteCancel(now, review, slug);
      Finish(saved, now, error);
    }

    method ExecuteDecision(now: Time, review: Id, slug: string, user: Id, groups: set<int>, admin: bool, decision: Decision) returns (error: Option<Error>)
      requires Inv(State())
      modifies this
      ensures Yields(DecideResult(old(State()), now, review, slug, user, groups, admin, decision), error, State())
    {
      hide HistoryOk, ReviewsOk, SuggestionsOk, FeedbackOk, IdsOk, PathsOk, ReviewedPage, DecisionError, Assigned;
      var found := LockReviewPage(review, slug);
      if found.None? {
        return Some(NotFound);
      }
      var id, row := found.value, reviews[review];
      error := DecisionError(row, Latest(Rows(history, id)), Assigned(row, user, groups, admin));
      if error.Some? {
        return;
      }
      match decision {
        case RequestChanges =>
          reviews := reviews[review := row.(status := ChangesRequested)];
        case Approve =>
          reviews := reviews[review := row.(status := Approved)];
          pages := pages[id := pages[id].(status := Verified, reviewedAt := Some(now), updatedAt := now)];
      }
    }

    /** Approves a pending request or asks for changes. */
    method DecidePageReview(now: Time, review: Id, slug: string, user: Id, groups: set<int>, admin: bool, decision: Decision) returns (error: Option<Error>)
      requires Valid() && now !in issued
      modifies this
      ensures Valid() && Transacted(old(State()), State(), now, Decide(review, slug, user, groups, admin, decision), error)
    {
      hide Inv, TokensOk, DecideResult;
      AfterIsLater(State(), now, Decide(review, slug, user, groups, admin, decision));
      var saved := State();
      error := ExecuteDecision(now, review, slug, user, groups, admin, decision);
      Finish(saved, now, error);
    }

    // ---- suggestions

    method ExecuteSuggest(slug: string, anchor: string, revision: nat, start: int, end: int, original: string, replacement: string, seen: string) returns (error: Option<Error>)
      requires Inv(State())
      modifies this
      ensures Yields(SuggestResult(old(State()), slug, anchor, Suggestion(0, revision, start, end, original, replacement, false), seen), error, State())
    {
      hide HistoryOk, ReviewsOk, SuggestionsOk, FeedbackOk, IdsOk, PathsOk, LiveAt, WellShaped;
      var found := FindLivePage(slug);
      if found.None? {
        return Some(NotFound);
      }
      var id := found.value;
      if pages[id].markdown != seen || Latest(Rows(history, id)) != revision {
        return Some(StaleSuggestion);
      }
      if !WellShaped(anchor, revision, start, end, original) {
        return Some(Constraint);
      }
      suggestions := suggestions[nextId := Suggestion(id, revision, start, end, original, replacement, false)];
      nextId := nextId + 1;
      return None;
    }

    method AddPageSuggestion(now: Time, slug: string, anchor: string, revision: nat, start: int, end: int, original: string, replacement: string, seen: string) returns (error: Option<Error>)
      requires Valid() && now !in issued
      modifies this
      ensures Valid() && Transacted(old(State()), State(), now, Suggest(slug, anchor, revision, start, end, original, replacement, seen), error)
    {
      hide Inv, TokensOk, SuggestResult;
      AfterIsLater(State(), now, Suggest(slug, anchor, revision, start, end, original, replacement, seen));
      var saved := State();
      error := ExecuteSuggest(slug, anchor, revision, start, end, original, replacement, seen);
      Finish(saved, now, error);
    }

    /** The page row, its revision and the open reviews of an applied suggestion. */
    method WritePreparedUpdate(now: Time, id: Id, markdown: string, render: string)
      requires id in pages && id in history
      modifies this`pages, this`history, this`reviews
      ensures State() == Updated(old(State()), now, id, markdown, render)
    {
      hide Append, Closed, Revised;
      RevisedOne(State(), id, pages[id].(markdown := markdown, updatedAt := now, render := render));
      pages := pages[id := pages[id].(markdown := markdown, updatedAt := now, render := render)];
      AppendRevision(id, markdown);
      SupersedeReviews(id);
    }

    method ExecuteApply(now: Time, slug: string, comment: Id, markdown: string, render: string, targets: seq<string>) returns (error: Option<Error>)
      requires Inv(State())
      modifies this
      ensures Yields(ApplySuggestionResult(old(State()), now, slug, comment, markdown, render, targets), error, State())
    {
      hide HistoryOk, ReviewsOk, SuggestionsOk, FeedbackOk, IdsOk, PathsOk, LiveAt, SuggestionError, Updated, Elements;
      var found := FindLivePage(slug);
      if found.None? {
        return Some(NotFound);
      }
      var id := found.value;
      if comment !in suggestions || suggestions[comment].page != id {
        return Some(CommentNotFound);
      }
      error := SuggestionError(suggestions[comment], Latest(Rows(history, id)), pages[id].markdown, markdown);
      if error.Some? {
        return;
      }
      SameKeys(State());
      WritePreparedUpdate(now, id, markdown, render);
      UpdatedRest(old(State()), now, id, markdown, render);
      suggestions := suggestions[comment := suggestions[comment].(applied := true)];
      ReplaceLinks(id, targets);
    }

    /** Applies one still-current inline suggestion as a new revision. */
    method ApplyPageCommentSuggestion(now: Time, slug: string, comment: Id, markdown: string, render: string, targets: seq<string>) returns (error: Option<Error>)
      requires Valid() && now !in issued
      modifies this
      ensures Valid() && Transacted(old(State()), State(), now, ApplySuggestion(slug, comment, markdown, render, targets), error)
    {
      hide Inv, TokensOk, ApplySuggestionResult;
      AfterIsLater(State(), now, ApplySuggestion(slug, comment, markdown, render, targets));
      var saved := State();
      error := ExecuteApply(now, slug, comment, markdown, render, targets);
      Finish(saved, now, error);
    }

    // ---- review suggestions

    method ExecuteComment(review: Id, slug: string, edit: Edit, body: string, isSuggestion: bool) returns (error: Option<Error>)
      requires Inv(State())
      modifies this
      ensures Yields(CommentResult(old(State()), review, slug, edit, body, isSuggestion), error, State())
    {
      hide HistoryOk, ReviewsOk, SuggestionsOk, FeedbackOk, IdsOk, PathsOk, ReviewedPage, WellFormed;
      var found := LockReviewPage(review, slug);
      if found.None? {
        return Some(NotFound);
      }
      if !reviews[review].status.Pending? {
        return Some(ReviewClosed);
      }
      if reviews[review].revision != Latest(Rows(history, found.value)) {
        return Some(StaleReview);
      }
      if !WellFormed(edit, body, isSuggestion) {
        return Some(Constraint);
      }
      feedback := feedback[nextId := Feedback(review, isSuggestion, edit, false)];
      nextId := nextId + 1;
      return None;
    }

    method AddPageReviewComment(now: Time, review: Id, slug: string, edit: Edit, body: string, isSuggestion: bool) returns (error: Option<Error>)
      requires Valid() && now !in issued
      modifies this
      ensures Valid() && Transacted(old(State()), State(), now, Comment(review, slug, edit, body, isSuggestion), error)
    {
      hide Inv, TokensOk, CommentResult;
      AfterIsLater(State(), now, Comment(review, slug, edit, body, isSuggestion));
      var saved := State();
      error := ExecuteComment(review, slug, edit, body, isSuggestion);
      Finish(saved, now, error);
    }

    /** The selected open suggestions, or all open ones, each once and in any order. */
    method LockOpenSuggestions(review: Id, ids: seq<int>, all: bool) returns (locked: seq<int>)
      ensures Distinct(locked) && Elements(locked) == OpenFeedback(feedback, review, ids, all)
      ensures forall k :: 0 <= k < |locked| ==> locked[k] in feedback
    {
      hide IsOpen;
      var open := OpenFeedback(feedback, review, ids, all);
      var todo := open;
      locked := [];
      while exists f :: f in todo
        invariant todo <= open && Distinct(locked)
        invariant forall k :: 0 <= k < |locked| ==> locked[k] !in todo && locked[k] in open && locked[k] in feedback
        invariant Elements(locked) + todo == open
        decreases todo
      {
        var f :| f in todo;
        ghost var before := locked;
        locked := locked + [f];
        todo := todo - {f};
        assert Elements(locked) == Elements(before) + {f};
      }
      assert todo == {};
    }

    /** Locks and checks everything a batch depends on, and computes the Markdown it must produce. */
    method PrepareBatch(review: Id, slug: string, revision: nat, ids: seq<int>, all: bool) returns (id: Id, expected: string, error: Option<Error>)
      requires PathsOk(pages, aliases)
      ensures var page := ReviewedPage(State(), review, slug);
        var open := OpenFeedback(feedback, review, ids, all);
        if page.None? then error == Some(NotFound)
        else if !reviews[review].status.Pending? then error == Some(ReviewClosed)
        else if reviews[review].revision != revision || Current(history, page.value) != revision then error == Some(StaleReview)
        else if !SameIds(ids, open) then error == Some(if all then StaleReview else NotFound)
        else match Outcome(pages[page.value].markdown, multiset(EditsOf(feedback, ids)))
             case Rejected => error == Some(SelectionRejected)
             case Ok(value) => error == None && id == page.value && expected == value
    {
      hide PathsOk, ReviewedPage, Outcome, OpenFeedback;
      id, expected := 0, "";
      var found := LockReviewPage(review, slug);
      if found.None? {
        return id, expected, Some(NotFound);
      }
      id := found.value;
      if !reviews[review].status.Pending? {
        return id, expected, Some(ReviewClosed);
      }
      if reviews[review].revision != revision || Latest(Rows(history, id)) != revision {
        return id, expected, Some(StaleReview);
      }
      var locked := LockOpenSuggestions(review, ids, all);
      var same := SameReviewSuggestionIds(ids, locked);
      if !same {
        return id, expected, Some(if all then StaleReview else NotFound);
      }
      SelectedEdits(feedback, ids, locked);
      var r := Apply(pages[id].markdown, EditsOf(feedback, locked));
      match r {
        case Rejected => return id, expected, Some(SelectionRejected);
        case Ok(value) => return id, value, None;
      }
    }

    /** The writes of a checked batch. */
    method WriteBatch(now: Time, id: Id, review: Id, ids: seq<int>, all: bool, markdown: string, render: string, targets: seq<string>)
      requires id in pages && id in history && SameIds(ids, OpenFeedback(feedback, review, ids, all))
      modifies this
      ensures State() == SetLinks(MarkFeedback(Updated(old(State()), now, id, markdown, render), review, OpenFeedback(old(feedback), review, ids, all)), id, Elements(targets))
    {
      hide Updated, Elements, SameIds, OpenFeedback, Marked;
      SelectedOpen(feedback, review, ids, all);
      WritePreparedUpdate(now, id, markdown, render);
      UpdatedRest(old(State()), now, id, markdown, render);
      ghost var updated := State();
      MarkedIs(updated, review, ids, OpenFeedback(old(feedback), review, ids, all));
      feedback := Marked(feedback, review, ids);
      ReplaceLinks(id, targets);
    }

    method ExecuteBatch(now: Time, review: Id, slug: string, revision: nat, ids: seq<int>, all: bool, markdown: string, render: string, targets: seq<string>) returns (error: Option<Error>)
      requires Inv(State())
      modifies this
      ensures Yields(ApplyFeedbackResult(old(State()), now, review, slug, revision, ids, all, markdown, render, targets), error, State())
    {
      hide HistoryOk, ReviewsOk, SuggestionsOk, FeedbackOk, IdsOk, PathsOk, ReviewedPage, Outcome, OpenFeedback, Updated, Elements, SameIds, Current, MarkFeedback, SetLinks;
      if ids == [] {
        return Some(Invalid);
      }
      var id, expected;
      id, expected, error := PrepareBatch(review, slug, revision, ids, all);
      if error.Some? {
        return;
      }
      if markdown != expected {
        return Some(StaleReview);
      }
      SameKeys(State());
      WriteBatch(now, id, review, ids, all, markdown, render, targets);
    }

    /** Applies the selected suggestions of a pending review as one new revision. */
    method ApplyPageReviewSuggestions(now: Time, review: Id, slug: string, revision: nat, ids: seq<int>, all: bool, markdown: string, render: string, targets: seq<string>) returns (error: Option<Error>)
      requires Valid() && now !in issued
      modifies this
      ensures Valid() && Transacted(old(State()), State(), now, ApplyFeedback(review, slug, revision, ids, all, markdown, render, targets), error)
    {
      hide Inv, TokensOk, ApplyFeedbackResult;
      AfterIsLater(State(), now, ApplyFeedback(review, slug, revision, ids, all, markdown, render, targets));
      var saved := State();
      error := ExecuteBatch(now, review, slug, revision, ids, all, markdown, render, targets);
      Finish(saved, now, error);
    }

    // ---- render artifacts

    /** Replaces the artifact only while the page carries the version token it was rendered from. */
    method SavePageRender(now: Time, page: Id, version: Time, render: string)
      requires Valid() && now !in issued
      modifies this
      ensures Valid() && Transacted(old(State()), State(), now, SaveRender(page, version, render), None)
    {
      hide Inv, TokensOk, SaveRenderResult;
      AfterIsLater(State(), now, SaveRender(page, version, render));
      WriteRender(page, version, render);
      issued := issued + {now};
    }

    method WriteRender(page: Id, version: Time, render: string)
      modifies this`pages
      ensures SaveRenderResult(old(State()), page, version, render) == Done(State())
    {
      if page in pages && pages[page].updatedAt == version {
        pages := pages[page := pages[page].(render := render)];
      }
    }
  }
}
