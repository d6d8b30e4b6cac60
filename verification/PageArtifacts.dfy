/**
 Stored render artifacts over whole runs: when a page's artifact is the rendering of its text, for
 any renderer, and when it is not.
 */
module PageArtifacts {
  import opened Options
  import opened TextScan
  import opened WikiLinks
  import opened SqlLike
  import opened ReviewEdits
  import opened PageTables
  import opened PageCommands
  import opened PageInvariant
  import opened PageRuns
  import opened PageLaws

  type Renderer = string -> string

  ghost predicate InStep(page: Page, renderer: Renderer) {
    page.render == renderer(page.markdown)
  }

  // ---- what a command stores

  /** The page that a save writes, or creates. */
  ghost predicate Writes(db: Tables, input: SaveInput, id: Id) {
    match PageAt(db.pages, LookupSlug(input))
    case None => id == db.nextId
    case Some(found) => id == found
  }

  ghost predicate ImportWrites(db: Tables, now: Time, inputs: seq<SaveInput>, id: Id)
    decreases |inputs|
  {
    inputs != [] && (Writes(db, inputs[0], id) || (SaveResult(db, now, inputs[0]).Done? && ImportWrites(SaveResult(db, now, inputs[0]).tables, now, inputs[1..], id)))
  }

  /** The command, if it succeeds, stores an artifact for the page. */
  ghost predicate Stores(db: Tables, now: Time, c: Command, id: Id) {
    match c
    case Save(input) => Writes(db, input, id)
    case SaveIfUnchanged(_, input) => Writes(db, input, id)
    case Import(inputs) => ImportWrites(db, now, inputs, id)
    case ApplySuggestion(slug, _, _, _, _) => LiveAt(db.pages, slug) == Some(id)
    case ApplyFeedback(review, slug, _, _, _, _, _, _) => ReviewedPage(db, review, slug) == Some(id)
    case SaveRender(page, version, _) => id == page && page in db.pages && db.pages[page].updatedAt == version
    case _ => false
  }

  /** Saves and applied suggestions carry the rendering of the text they write. */
  ghost predicate Carries(c: Command, renderer: Renderer) {
    match c
    case Save(input) => input.render == renderer(input.markdown)
    case SaveIfUnchanged(_, input) => input.render == renderer(input.markdown)
    case Import(inputs) => forall k :: 0 <= k < |inputs| ==> inputs[k].render == renderer(inputs[k].markdown)
    case ApplySuggestion(_, _, markdown, render, _) => render == renderer(markdown)
    case ApplyFeedback(_, _, _, _, _, markdown, render, _) => render == renderer(markdown)
    case _ => true
  }

  /** An artifact stored on its own is the rendering of the text that its token stands for now. */
  ghost predicate CarriesNow(db: Tables, c: Command, renderer: Renderer) {
    && Carries(c, renderer)
    && (c.SaveRender? && c.page in db.pages && db.pages[c.page].updatedAt == c.version ==> c.render == renderer(db.pages[c.page].markdown))
  }

  predicate Moves(c: Command) {
    c.Move? || c.BulkMove?
  }

  /** A page that keeps its artifact; only a move may have changed its text. */
  ghost predicate Untouched(before: Pages, after: Pages, id: Id, moved: bool) {
    id in before && id in after && after[id].render == before[id].render && (moved || after[id].markdown == before[id].markdown)
  }

  // ---- one command

  lemma InsertStores(db: Tables, input: SaveInput, now: Time, id: Id)
    requires InsertPage(db, input, now).Done? && id in InsertPage(db, input, now).tables.pages
    ensures var after := InsertPage(db, input, now).tables.pages;
      if id == db.nextId then after[id].render == input.render && after[id].markdown == input.markdown else Untouched(db.pages, after, id, false)
  {
    hide PageAt, Elements;
  }

  lemma RenameStores(db: Tables, page: Id, slug: Slug, now: Time, id: Id)
    requires page in db.pages && Rename(db, page, slug, now).Done? && id in Rename(db, page, slug, now).tables.pages
    ensures Untouched(db.pages, Rename(db, page, slug, now).tables.pages, id, false)
  {
    hide Taken, MovedAliases;
  }

  lemma WriteStores(db: Tables, before: Page, page: Id, input: SaveInput, now: Time, id: Id)
    requires page in db.pages && id in Write(db, before, page, input, now).pages
    ensures var after := Write(db, before, page, input, now).pages;
      if id == page then after[id].render == input.render && after[id].markdown == input.markdown else Untouched(db.pages, after, id, false)
  {
    hide SameContent, Elements, Append, Closed;
  }

  lemma SaveStores(db: Tables, now: Time, input: SaveInput, id: Id)
    requires SaveResult(db, now, input).Done? && id in SaveResult(db, now, input).tables.pages
    ensures var after := SaveResult(db, now, input).tables.pages;
      if Writes(db, input, id) then after[id].render == input.render && after[id].markdown == input.markdown else Untouched(db.pages, after, id, false)
  {
    hide InsertPage, Rename, Write, LookupSlug;
    match PageAt(db.pages, LookupSlug(input))
    case None =>
      InsertStores(db, input, now, id);
    case Some(page) =>
      RenameReviews(db, page, input.slug, now);
      var renamed := Rename(db, page, input.slug, now).tables;
      WriteStores(renamed, db.pages[page], page, input, now, id);
      WritePages(renamed, db.pages[page], page, input, now);
      RenameStores(db, page, input.slug, now, id);
  }

  lemma WritePages(db: Tables, before: Page, page: Id, input: SaveInput, now: Time)
    requires page in db.pages
    ensures Write(db, before, page, input, now).pages.Keys == db.pages.Keys
  {
    hide SameContent, Elements, Append, Closed, EditedPage;
  }

  lemma SavePages(db: Tables, now: Time, input: SaveInput)
    requires SaveResult(db, now, input).Done?
    ensures db.pages.Keys <= SaveResult(db, now, input).tables.pages.Keys
  {
    hide InsertPage, Rename, Write, LookupSlug;
    match PageAt(db.pages, LookupSlug(input))
    case None =>
      InsertPages(db, input, now);
    case Some(page) =>
      RenameReviews(db, page, input.slug, now);
      RenamePages(db, page, input.slug, now);
      WritePages(Rename(db, page, input.slug, now).tables, db.pages[page], page, input, now);
  }

  lemma InsertPages(db: Tables, input: SaveInput, now: Time)
    requires InsertPage(db, input, now).Done?
    ensures db.pages.Keys <= InsertPage(db, input, now).tables.pages.Keys
  {
    hide PageAt, Elements;
  }

  lemma RenamePages(db: Tables, page: Id, slug: Slug, now: Time)
    requires page in db.pages && Rename(db, page, slug, now).Done?
    ensures Rename(db, page, slug, now).tables.pages.Keys == db.pages.Keys
  {
    hide Taken, MovedAliases;
  }

  lemma {:induction false} ImportPagesKept(db: Tables, now: Time, inputs: seq<SaveInput>)
    requires ImportResult(db, now, inputs).Done?
    ensures db.pages.Keys <= ImportResult(db, now, inputs).tables.pages.Keys
    decreases |inputs|
  {
    hide SaveResult;
    if inputs != [] {
      SavePages(db, now, inputs[0]);
      ImportPagesKept(SaveResult(db, now, inputs[0]).tables, now, inputs[1..]);
    }
  }

  /** An import stores the artifact of the last save of each page. */
  lemma {:induction false} ImportStores(db: Tables, now: Time, inputs: seq<SaveInput>, id: Id, renderer: Renderer)
    requires ImportResult(db, now, inputs).Done? && id in ImportResult(db, now, inputs).tables.pages && Carries(Import(inputs), renderer)
    ensures var after := ImportResult(db, now, inputs).tables.pages;
      if ImportWrites(db, now, inputs, id) then InStep(after[id], renderer) else Untouched(db.pages, after, id, false)
    decreases |inputs|
  {
    hide SaveResult, Writes;
    if inputs != [] {
      var next := SaveResult(db, now, inputs[0]).tables;
      assert forall k :: 0 <= k < |inputs[1..]| ==> inputs[1..][k] == inputs[k + 1];
      ImportStores(next, now, inputs[1..], id, renderer);
      if id in next.pages {
        SaveStores(db, now, inputs[0], id);
      } else if Writes(db, inputs[0], id) {
        SaveWritesPage(db, now, inputs[0], id);
      }
    }
  }

  lemma SaveWritesPage(db: Tables, now: Time, input: SaveInput, id: Id)
    requires SaveResult(db, now, input).Done? && Writes(db, input, id)
    ensures id in SaveResult(db, now, input).tables.pages
  {
    hide InsertPage, Rename, Write, LookupSlug;
    SavePages(db, now, input);
    if PageAt(db.pages, LookupSlug(input)).None? {
      InsertHasPage(db, input, now);
    }
  }

  lemma InsertHasPage(db: Tables, input: SaveInput, now: Time)
    requires InsertPage(db, input, now).Done?
    ensures db.nextId in InsertPage(db, input, now).tables.pages
  {
    hide PageAt, Elements;
  }

  lemma UpdatedStores(db: Tables, now: Time, page: Id, markdown: string, render: string, id: Id)
    requires page in db.pages && id in db.pages
    ensures var after := Updated(db, now, page, markdown, render).pages;
      && after.Keys == db.pages.Keys
      && if id == page then after[id].render == render && after[id].markdown == markdown else Untouched(db.pages, after, id, false)
  {
    hide Append, Closed;
  }

  lemma MoveStores(db: Tables, now: Time, source: string, target: Path, children: bool, updateLinks: bool, id: Id)
    requires MoveResult(db, now, source, target, children, updateLinks).Done? && id in MoveResult(db, now, source, target, children, updateLinks).tables.pages
    ensures Untouched(db.pages, MoveResult(db, now, source, target, children, updateLinks).tables.pages, id, true)
  {
    hide MoveResult, MoveAll, CanMove, LinkClash;
    var to := MoveDone(db, now, source, target, children, updateLinks);
    MoveAllRenders(db, to, updateLinks, now);
  }

  lemma MoveAllRenders(db: Tables, to: map<Id, Slug>, updateLinks: bool, now: Time)
    ensures var after := MoveAll(db, to, updateLinks, now).pages;
      after.Keys == db.pages.Keys && forall i :: i in db.pages ==> after[i].render == db.pages[i].render
  {
    hide PathMap, MovedAliases, Substitute, Append;
  }

  lemma {:induction false} BulkMoveStores(db: Tables, now: Time, slugs: seq<string>, target: Path, id: Id)
    requires Inv(db) && BulkMoveFrom(db, now, slugs, target).Done? && id in BulkMoveFrom(db, now, slugs, target).tables.pages
    ensures Untouched(db.pages, BulkMoveFrom(db, now, slugs, target).tables.pages, id, true)
    decreases |slugs|
  {
    hide Inv, BulkMoveOne, MoveResult;
    if slugs != [] {
      var source, destination := BulkStep(db, now, slugs[0], target);
      BulkMoveStores(BulkMoveOne(db, now, slugs[0], target).tables, now, slugs[1..], target, id);
      MoveStores(db, now, source, destination, false, true, id);
    }
  }

  lemma ApplySuggestionStores(db: Tables, now: Time, slug: string, comment: Id, markdown: string, render: string, links: seq<string>, id: Id)
    requires ApplySuggestionResult(db, now, slug, comment, markdown, render, links).Done?
    requires id in ApplySuggestionResult(db, now, slug, comment, markdown, render, links).tables.pages
    ensures var after := ApplySuggestionResult(db, now, slug, comment, markdown, render, links).tables.pages;
      if LiveAt(db.pages, slug) == Some(id) then after[id].render == render && after[id].markdown == markdown else Untouched(db.pages, after, id, false)
  {
    hide PageAt, Current, SuggestionError, Elements, Updated;
    var page := LiveAt(db.pages, slug).value;
    UpdatedStores(db, now, page, markdown, render, page);
    if id in db.pages { UpdatedStores(db, now, page, markdown, render, id); }
  }

  lemma ApplyFeedbackStores(db: Tables, now: Time, review: Id, slug: string, revision: nat, ids: seq<int>, all: bool, markdown: string, render: string, links: seq<string>, id: Id)
    requires ApplyFeedbackResult(db, now, review, slug, revision, ids, all, markdown, render, links).Done?
    requires id in ApplyFeedbackResult(db, now, review, slug, revision, ids, all, markdown, render, links).tables.pages
    ensures var after := ApplyFeedbackResult(db, now, review, slug, revision, ids, all, markdown, render, links).tables.pages;
      if ReviewedPage(db, review, slug) == Some(id) then after[id].render == render && after[id].markdown == markdown else Untouched(db.pages, after, id, false)
  {
    hide LiveAt, Current, Outcome, Elements, Updated, SameIds, OpenFeedback;
    var page := ReviewedPage(db, review, slug).value;
    UpdatedStores(db, now, page, markdown, render, page);
    if id in db.pages { UpdatedStores(db, now, page, markdown, render, id); }
  }

  lemma BinStores(db: Tables, slug: string, id: Id)
    ensures BinResult(db, slug).Done? && id in BinResult(db, slug).tables.pages ==> Untouched(db.pages, BinResult(db, slug).tables.pages, id, false)
    ensures RestoreResult(db, slug).Done? && id in RestoreResult(db, slug).tables.pages ==> Untouched(db.pages, RestoreResult(db, slug).tables.pages, id, false)
    ensures PurgeResult(db, slug).Done? && id in PurgeResult(db, slug).tables.pages ==> Untouched(db.pages, PurgeResult(db, slug).tables.pages, id, false)
  {
    hide PageAt;
  }

  lemma ReviewStores(db: Tables, now: Time, review: Id, slug: string, reviewers: seq<Id>, group: int, id: Id)
    ensures RequestResult(db, now, slug, reviewers, group).Done? && id in RequestResult(db, now, slug, reviewers, group).tables.pages ==>
      Untouched(db.pages, RequestResult(db, now, slug, reviewers, group).tables.pages, id, false)
    ensures UpdateResult(db, review, slug, reviewers, group).Done? && id in UpdateResult(db, review, slug, reviewers, group).tables.pages ==>
      Untouched(db.pages, UpdateResult(db, review, slug, reviewers, group).tables.pages, id, false)
    ensures CancelResult(db, now, review, slug).Done? && id in CancelResult(db, now, review, slug).tables.pages ==>
      Untouched(db.pages, CancelResult(db, now, review, slug).tables.pages, id, false)
  {
    hide LiveAt, Current, HasPending, Elements;
  }

  lemma DecideStores(db: Tables, now: Time, review: Id, slug: string, user: Id, groups: set<int>, admin: bool, decision: Decision, id: Id)
    requires DecideResult(db, now, review, slug, user, groups, admin, decision).Done?
    requires id in DecideResult(db, now, review, slug, user, groups, admin, decision).tables.pages
    ensures Untouched(db.pages, DecideResult(db, now, review, slug, user, groups, admin, decision).tables.pages, id, false)
  {
    hide LiveAt, Current, Assigned;
  }

  lemma CommentStores(db: Tables, review: Id, slug: string, edit: Edit, body: string, isSuggestion: bool, anchor: string, s: Suggestion, seen: string)
    ensures CommentResult(db, review, slug, edit, body, isSuggestion).Done? ==> CommentResult(db, review, slug, edit, body, isSuggestion).tables.pages == db.pages
    ensures SuggestResult(db, slug, anchor, s, seen).Done? ==> SuggestResult(db, slug, anchor, s, seen).tables.pages == db.pages
  {
    hide LiveAt, Current, WellFormed, WellShaped;
  }

  /** After a command a page has a fresh artifact if the command stores one, and its old one otherwise. */
  ghost predicate Stored(db: Tables, now: Time, c: Command, after: Pages, id: Id, renderer: Renderer)
    requires id in after
  {
    if Stores(db, now, c, id) then InStep(after[id], renderer) else Untouched(db.pages, after, id, Moves(c))
  }

  lemma AttemptStores(db: Tables, now: Time, c: Command, id: Id, renderer: Renderer)
    requires Inv(db) && Attempt(db, now, c).Done? && id in Attempt(db, now, c).tables.pages && CarriesNow(db, c, renderer)
    ensures Stored(db, now, c, Attempt(db, now, c).tables.pages, id, renderer)
  {
    hide Inv, SaveResult, SaveIfUnchangedResult, ImportResult, SaveRenderResult, MoveResult, BulkMoveFrom, BinResult, RestoreResult, PurgeResult, RequestResult, UpdateResult,
      CancelResult, DecideResult, SuggestResult, ApplySuggestionResult, CommentResult, ApplyFeedbackResult, Writes, ImportWrites, LiveAt, ReviewedPage;
    match c
    case Save(input) => SaveStores(db, now, input, id);
    case SaveIfUnchanged(token, input) => UnchangedStores(db, now, token, input); SaveStores(db, now, input, id);
    case Import(inputs) => ImportStores(db, now, inputs, id, renderer);
    case Move(source, target, children, updateLinks) => MoveStores(db, now, source, target, children, updateLinks, id);
    case BulkMove(slugs, target) => BulkMoveStores(db, now, slugs, target, id);
    case Bin(slug) => BinStores(db, slug, id);
    case Restore(slug) => BinStores(db, slug, id);
    case Purge(slug) => BinStores(db, slug, id);
    case Request(slug, reviewers, group) => ReviewStores(db, now, 0, slug, reviewers, group, id);
    case Update(review, slug, reviewers, group) => ReviewStores(db, now, review, slug, reviewers, group, id);
    case Cancel(review, slug) => ReviewStores(db, now, review, slug, [], 0, id);
    case Decide(review, slug, user, groups, admin, decision) => DecideStores(db, now, review, slug, user, groups, admin, decision, id);
    case Suggest(slug, anchor, revision, start, end, original, replacement, seen) =>
      CommentStores(db, 0, slug, Edit.Edit(true, 0, 0, "", ""), "", true, anchor, Suggestion(0, revision, start, end, original, replacement, false), seen);
    case ApplySuggestion(slug, comment, markdown, render, links) => ApplySuggestionStores(db, now, slug, comment, markdown, render, links, id);
    case Comment(review, slug, edit, body, isSuggestion) =>
      CommentStores(db, review, slug, edit, body, isSuggestion, "", Suggestion(0, 0, 0, 0, "", "", false), "");
    case ApplyFeedback(review, slug, revision, ids, all, markdown, render, links) =>
      ApplyFeedbackStores(db, now, review, slug, revision, ids, all, markdown, render, links, id);
    case SaveRender(page, version, render) => RenderStores(db, now, page, version, render, id, renderer);
  }

  lemma UnchangedStores(db: Tables, now: Time, token: Option<Time>, input: SaveInput)
    requires SaveIfUnchangedResult(db, now, token, input).Done?
    ensures SaveResult(db, now, input) == SaveIfUnchangedResult(db, now, token, input)
  {
    hide SaveResult;
  }

  lemma RenderStores(db: Tables, now: Time, page: Id, version: Time, render: string, id: Id, renderer: Renderer)
    requires CarriesNow(db, SaveRender(page, version, render), renderer) && id in SaveRenderResult(db, page, version, render).tables.pages
    ensures Stored(db, now, SaveRender(page, version, render), SaveRenderResult(db, page, version, render).tables.pages, id, renderer)
  {
  }

  // ---- runs

  /** The tables after the first `k` steps of a run. */
  ghost function At(steps: seq<Step>, k: nat): Tables
    requires k <= |steps|
  {
    Run(Empty(), steps[..k])
  }

  lemma {:induction false} RunOn(db: Tables, first: seq<Step>, rest: seq<Step>)
    ensures Run(db, first + rest) == Run(Run(db, first), rest)
    ensures Fresh(db, first + rest) <==> Fresh(db, first) && Fresh(Run(db, first), rest)
    decreases |first|
  {
    hide After;
    if first == [] {
      assert first + rest == rest;
    } else {
      assert (first + rest)[1..] == first[1..] + rest;
      RunOn(After(db, first[0].now, first[0].command), first[1..], rest);
    }
  }

  lemma AtNext(steps: seq<Step>, k: nat)
    requires k < |steps|
    ensures At(steps, k + 1) == After(At(steps, k), steps[k].now, steps[k].command)
  {
    hide After, Run, Fresh;
    assert steps[..k + 1] == steps[..k] + [steps[k]];
    RunOn(Empty(), steps[..k], [steps[k]]);
    RunOne(At(steps, k), steps[k]);
  }

  lemma AtMoments(steps: seq<Step>, j: nat, k: nat)
    requires Fresh(Empty(), steps) && j <= k <= |steps|
    ensures Moments(steps[..j], At(steps, j), steps[j..k], At(steps, k))
  {
    hide After, Run, Fresh;
    assert steps == steps[..k] + steps[k..] && steps[..k] == steps[..j] + steps[j..k];
    RunOn(Empty(), steps[..k], steps[k..]);
    RunOn(Empty(), steps[..j], steps[j..k]);
  }

  /** An artifact stored on its own is the rendering of the text its token stood for at some earlier moment. */
  ghost predicate SeenBefore(steps: seq<Step>, k: nat, page: Id, version: Time, render: string, renderer: Renderer)
    requires k <= |steps|
  {
    exists j :: 0 <= j <= k && page in At(steps, j).pages && At(steps, j).pages[page].updatedAt == version
      && render == renderer(At(steps, j).pages[page].markdown)
  }

  /** Every artifact in the run was made by the renderer, from what its command writes or had read. */
  ghost predicate Honest(steps: seq<Step>, renderer: Renderer) {
    forall k :: 0 <= k < |steps| ==> HonestAt(steps, k, renderer)
  }

  ghost predicate HonestAt(steps: seq<Step>, k: nat, renderer: Renderer)
    requires k < |steps|
  {
    var c := steps[k].command;
    Carries(c, renderer) && (c.SaveRender? ==> SeenBefore(steps, k, c.page, c.version, c.render, renderer))
  }

  lemma HonestIsNow(steps: seq<Step>, k: nat, renderer: Renderer)
    requires Fresh(Empty(), steps) && k < |steps| && HonestAt(steps, k, renderer)
    ensures CarriesNow(At(steps, k), steps[k].command, renderer)
  {
    hide Fresh, At, Carries, Moments;
    var c, db := steps[k].command, At(steps, k);
    if c.SaveRender? && c.page in db.pages && db.pages[c.page].updatedAt == c.version {
      var j :| 0 <= j <= k && c.page in At(steps, j).pages && At(steps, j).pages[c.page].updatedAt == c.version
        && c.render == renderer(At(steps, j).pages[c.page].markdown);
      AtMoments(steps, j, k);
      TokensSound(steps[..j], At(steps, j), steps[j..k], db, c.page, c.page);
    }
  }

  /** A link-rewriting move changed the page's text at some step, and no later step stored its artifact. */
  ghost predicate Outdated(steps: seq<Step>, n: nat, id: Id)
    requires n <= |steps|
  {
    exists k :: 0 <= k < n && Rewrites(steps, k, id) && forall j :: k < j < n ==> !StoresAt(steps, j, id)
  }

  ghost predicate Rewrites(steps: seq<Step>, k: nat, id: Id)
    requires k < |steps|
  {
    var before, after := At(steps, k).pages, At(steps, k + 1).pages;
    Moves(steps[k].command) && id in before && id in after && after[id].markdown != before[id].markdown
  }

  ghost predicate StoresAt(steps: seq<Step>, k: nat, id: Id)
    requires k < |steps|
  {
    var db := At(steps, k);
    Attempt(db, steps[k].now, steps[k].command).Done? && Stores(db, steps[k].now, steps[k].command, id)
  }

  lemma OutdatedMore(steps: seq<Step>, n: nat, id: Id)
    requires n < |steps|
    ensures Rewrites(steps, n, id) ==> Outdated(steps, n + 1, id)
    ensures Outdated(steps, n, id) && !StoresAt(steps, n, id) ==> Outdated(steps, n + 1, id)
  {
    hide Rewrites, StoresAt;
    if Outdated(steps, n, id) && !StoresAt(steps, n, id) {
      var k :| 0 <= k < n && Rewrites(steps, k, id) && forall j :: k < j < n ==> !StoresAt(steps, j, id);
      assert Rewrites(steps, k, id) && forall j :: k < j < n + 1 ==> !StoresAt(steps, j, id);
    }
  }

  lemma AtInv(steps: seq<Step>, k: nat)
    requires Fresh(Empty(), steps) && k <= |steps|
    ensures Inv(At(steps, k))
  {
    hide Fresh, At, Moments, Kept, Inv;
    AtMoments(steps, k, k);
    MomentsLater(steps[..k], At(steps, k), steps[k..k], At(steps, k));
    LaterInv(At(steps, k), At(steps, k));
  }

  /** The last step that stored the page's artifact. */
  ghost predicate LastStore(steps: seq<Step>, n: nat, id: Id, k: nat)
    requires n <= |steps|
  {
    k < n && StoresAt(steps, k, id) && forall j :: k < j < n ==> !StoresAt(steps, j, id)
  }

  /** What one step of an honest run does to a page's artifact and text. */
  lemma StepStores(steps: seq<Step>, k: nat, id: Id, renderer: Renderer)
    requires Fresh(Empty(), steps) && Honest(steps, renderer) && k < |steps| && id in At(steps, k + 1).pages
    ensures if StoresAt(steps, k, id) then InStep(At(steps, k + 1).pages[id], renderer)
            else Untouched(At(steps, k).pages, At(steps, k + 1).pages, id, Moves(steps[k].command))
  {
    hide Fresh, At, After, Attempt, Inv, CarriesNow, HonestAt, Stores;
    var db, step := At(steps, k), steps[k];
    AtNext(steps, k);
    IfAttempted(db, step.now, step.command);
    if Attempt(db, step.now, step.command).Done? {
      AtInv(steps, k);
      HonestIsNow(steps, k, renderer);
      AttemptStores(db, step.now, step.command, id, renderer);
    }
  }

  /** Every page's artifact was stored at some step, and is the rendering of the text the page had then. */
  lemma {:induction false} LastStored(steps: seq<Step>, n: nat, id: Id, renderer: Renderer) returns (k: nat)
    requires Fresh(Empty(), steps) && Honest(steps, renderer) && n <= |steps| && id in At(steps, n).pages
    ensures LastStore(steps, n, id, k) && id in At(steps, k + 1).pages
    ensures At(steps, n).pages[id].render == renderer(At(steps, k + 1).pages[id].markdown)
    decreases n
  {
    hide Fresh, At, StoresAt, Honest;
    k := 0;
    if n == 0 {
      NoPages(steps);
    } else {
      StepStores(steps, n - 1, id, renderer);
      if StoresAt(steps, n - 1, id) {
        k := n - 1;
      } else {
        k := LastStored(steps, n - 1, id, renderer);
      }
    }
  }

  lemma OneLastStore(steps: seq<Step>, n: nat, id: Id, j: nat, k: nat)
    requires n <= |steps| && LastStore(steps, n, id, j) && LastStore(steps, n, id, k)
    ensures j == k
  {
    hide StoresAt;
  }

  /**
   In every run whose artifacts come from one renderer, a page's artifact is the rendering of its text
   exactly when the renderer gives the same for the text now and the text at the last store.
   */
  lemma InStepExactly(steps: seq<Step>, n: nat, id: Id, renderer: Renderer, k: nat)
    requires Fresh(Empty(), steps) && Honest(steps, renderer) && n <= |steps| && id in At(steps, n).pages && LastStore(steps, n, id, k)
    ensures id in At(steps, k + 1).pages
    ensures InStep(At(steps, n).pages[id], renderer) <==> renderer(At(steps, n).pages[id].markdown) == renderer(At(steps, k + 1).pages[id].markdown)
  {
    hide Fresh, At, StoresAt, Honest, LastStore;
    var last := LastStored(steps, n, id, renderer);
    OneLastStore(steps, n, id, last, k);
  }

  /** For a renderer that tells any two texts apart: exactly when the text has not changed since. */
  lemma InStepUnchanged(steps: seq<Step>, n: nat, id: Id, renderer: Renderer, k: nat)
    requires Fresh(Empty(), steps) && Honest(steps, renderer) && n <= |steps| && id in At(steps, n).pages && LastStore(steps, n, id, k)
    requires forall x, y :: renderer(x) == renderer(y) ==> x == y
    ensures id in At(steps, k + 1).pages
    ensures InStep(At(steps, n).pages[id], renderer) <==> At(steps, n).pages[id].markdown == At(steps, k + 1).pages[id].markdown
  {
    hide Fresh, At, Honest, LastStore;
    InStepExactly(steps, n, id, renderer, k);
  }

  /** Since the last store only a link-rewriting move can have changed the text. */
  lemma {:induction false} OnlyMovesChange(steps: seq<Step>, k: nat, n: nat, id: Id, renderer: Renderer)
    requires Fresh(Empty(), steps) && Honest(steps, renderer) && k < n <= |steps| && id in At(steps, n).pages
    requires forall j :: k < j < n ==> !StoresAt(steps, j, id)
    ensures id in At(steps, k + 1).pages
    ensures At(steps, n).pages[id].markdown == At(steps, k + 1).pages[id].markdown || Outdated(steps, n, id)
    decreases n
  {
    hide Fresh, At, StoresAt, Honest, Outdated;
    if n > k + 1 {
      StepStores(steps, n - 1, id, renderer);
      OnlyMovesChange(steps, k, n - 1, id, renderer);
      OutdatedMore(steps, n - 1, id);
    }
  }

  /** So an artifact is in step unless a link-rewriting move has changed the text since it was last stored. */
  lemma ArtifactsInStep(steps: seq<Step>, n: nat, id: Id, renderer: Renderer)
    requires Fresh(Empty(), steps) && Honest(steps, renderer) && n <= |steps| && id in At(steps, n).pages
    ensures InStep(At(steps, n).pages[id], renderer) || Outdated(steps, n, id)
  {
    hide Fresh, At, StoresAt, Honest, Outdated;
    var k := LastStored(steps, n, id, renderer);
    OnlyMovesChange(steps, k, n, id, renderer);
  }

  lemma NoPages(steps: seq<Step>)
    ensures At(steps, 0).pages == map[]
  {
    assert steps[..0] == [];
  }
}
