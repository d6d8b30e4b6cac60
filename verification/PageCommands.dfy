/**
 What each page transaction does to the tables as one atomic step, or the error it reports. A failed
 transaction is rolled back.
 */
module PageCommands {
  import opened Options
  import opened TextScan
  import opened WikiLinks
  import opened SqlLike
  import opened ReviewEdits
  import opened PageTables

  datatype Error =
    | NotFound | AlreadyExists | PageInBin | Invalid | EditConflict(revision: nat)
    | ReviewPending | ReviewClosed | StaleReview | Forbidden
    | StaleSuggestion | CommentNotFound | SelectionRejected | Constraint

  datatype Result = Done(tables: Tables) | Failed(error: Error)

  /** A requested path after normalization; nothing may be left of it. */
  type Path = s: string | s == "" || IsSlug(s) witness ""

  datatype SaveInput = SaveInput(previous: string, slug: Slug, details: Details, status: PageStatus, reviewed: bool,
                                 markdown: string, render: string, links: seq<string>)

  datatype Decision = Approve | RequestChanges

  datatype Command =
    | Save(input: SaveInput)
    | SaveIfUnchanged(token: Option<Time>, input: SaveInput)
    | Import(inputs: seq<SaveInput>)
    | Move(source: string, target: Path, children: bool, updateLinks: bool)
    | BulkMove(slugs: seq<string>, target: Path)
    | Bin(slug: string)
    | Restore(slug: string)
    | Purge(slug: string)
    | Request(slug: string, reviewers: seq<Id>, group: int)
    | Update(review: Id, slug: string, reviewers: seq<Id>, group: int)
    | Cancel(review: Id, slug: string)
    | Decide(review: Id, slug: string, user: Id, groups: set<int>, admin: bool, decision: Decision)
    | Suggest(slug: string, anchor: string, revision: nat, start: int, end: int, original: string, replacement: string, seen: string)
    | ApplySuggestion(slug: string, comment: Id, markdown: string, render: string, links: seq<string>)
    | Comment(review: Id, slug: string, edit: Edit, body: string, isSuggestion: bool)
    | ApplyFeedback(review: Id, slug: string, revision: nat, ids: seq<int>, all: bool, markdown: string, render: string, links: seq<string>)
    | SaveRender(page: Id, version: Time, render: string)

  function Elements<T(==)>(s: seq<T>): set<T> {
    set x | x in s
  }

  // ---- saving

  function LookupSlug(input: SaveInput): string {
    if TrimSpace(input.previous) != "" then TrimSpace(input.previous) else input.slug
  }

  function NewPage(input: SaveInput, now: Time): Page {
    Page(input.slug, input.details, input.status, if input.reviewed then Some(now) else None, input.markdown, now, false, input.render)
  }

  function EditedPage(page: Page, input: SaveInput, now: Time): Page {
    page.(slug := input.slug, details := input.details, status := input.status,
          reviewedAt := if input.reviewed then Some(now) else page.reviewedAt,
          markdown := input.markdown, updatedAt := now, render := input.render)
  }

  /** Nothing that a revision records differs. */
  predicate SameContent(before: Page, after: Page) {
    && before.slug == after.slug && before.details == after.details && before.status == after.status
    && before.reviewedAt == after.reviewedAt && before.markdown == after.markdown
  }

  ghost function InsertPage(db: Tables, input: SaveInput, now: Time): Result {
    if input.slug in db.aliases || PageAt(db.pages, input.slug).Some? then Failed(AlreadyExists)
    else Done(SetLinks(Created(db, NewPage(input, now)), db.nextId, Elements(input.links)))
  }

  ghost function Rename(db: Tables, id: Id, slug: Slug, now: Time): Result
    requires id in db.pages
  {
    if db.pages[id].slug == slug then Done(db)
    else if Taken(db.pages, db.aliases, id, slug) then Failed(AlreadyExists)
    else Done(Moved(db, map[id := slug], now))
  }

  /** A save that changes nothing keeps the version token and opens no revision. */
  ghost function Write(db: Tables, before: Page, id: Id, input: SaveInput, now: Time): Tables
    requires id in db.pages
  {
    var after := EditedPage(before, input, now);
    var linked := SetLinks(db, id, Elements(input.links));
    if SameContent(before, after) then Put(linked, id, after.(updatedAt := before.updatedAt))
    else Supersede(Revised(linked, map[id := after]), id)
  }

  ghost function EditPage(db: Tables, id: Id, input: SaveInput, now: Time): Result
    requires id in db.pages
  {
    match Rename(db, id, input.slug, now)
    case Failed(e) => Failed(e)
    case Done(renamed) => Done(Write(renamed, db.pages[id], id, input, now))
  }

  ghost function SaveResult(db: Tables, now: Time, input: SaveInput): Result {
    if input.details.interval < 0 then Failed(Invalid) else
    match PageAt(db.pages, LookupSlug(input))
    case None => InsertPage(db, input, now)
    case Some(id) => if db.pages[id].binned then Failed(PageInBin) else EditPage(db, id, input, now)
  }

  ghost function SaveIfUnchangedResult(db: Tables, now: Time, expected: Option<Time>, input: SaveInput): Result {
    if expected.None? || TrimSpace(input.previous) == "" || input.details.interval < 0 then Failed(Invalid) else
    match PageAt(db.pages, TrimSpace(input.previous))
    case None => Failed(NotFound)
    case Some(id) =>
      if db.pages[id].binned then Failed(PageInBin)
      else if db.pages[id].updatedAt != expected.value then Failed(EditConflict(Current(db.history, id)))
      else SaveResult(db, now, input)
  }

  /** Many saves in one transaction, all with its timestamp; the first error ends it. */
  ghost function ImportResult(db: Tables, now: Time, inputs: seq<SaveInput>): Result
    decreases |inputs|
  {
    if inputs == [] then Done(db) else
    match SaveResult(db, now, inputs[0])
    case Failed(e) => Failed(e)
    case Done(next) => ImportResult(next, now, inputs[1..])
  }

  // ---- moving

  function TrimLeftSlashes(s: string): (r: string)
    ensures |r| <= |s|
  {
    if s != "" && s[0] == '/' then TrimLeftSlashes(s[1..]) else s
  }

  function TrimRightSlashes(s: string): (r: string)
    ensures |r| <= |s|
  {
    if s != "" && s[|s| - 1] == '/' then TrimRightSlashes(s[..|s| - 1]) else s
  }

  /** strings.Trim(strings.TrimSpace(s), "/") */
  function SourcePath(s: string): string {
    TrimRightSlashes(TrimLeftSlashes(TrimSpace(s)))
  }

  predicate Movable(source: string, target: Path, children: bool) {
    source != "" && target != "" && source != target && !(children && IsBelow(target, source))
  }

  predicate IsSelected(page: Page, source: string, children: bool) {
    !page.binned && (page.slug == source || (children && Like(page.slug, Below(source))))
  }

  function TrimPrefix(s: string, prefix: string): string {
    if prefix <= s then s[|prefix|..] else s
  }

  function Destination(slug: Slug, source: string, target: Slug): (r: Slug) {
    target + TrimPrefix(slug, source)
  }

  ghost function Destinations(pages: Pages, source: string, target: Slug, children: bool): map<Id, Slug> {
    map id | id in pages && IsSelected(pages[id], source, children) :: Destination(pages[id].slug, source, target)
  }

  ghost predicate SomeTaken(pages: Pages, aliases: Aliases, to: map<Id, Slug>) {
    exists id :: id in to && Taken(pages, aliases, id, to[id])
  }

  ghost predicate Injective(to: map<Id, Slug>) {
    forall i, j :: i in to && j in to && to[i] == to[j] ==> i == j
  }

  /** The old-to-new substitution of a move. */
  ghost function PathMap(pages: Pages, to: map<Id, Slug>): map<string, string> {
    map s | s in OldPaths(pages, to) :: if PageAt(pages, s).Some? && PageAt(pages, s).value in to then to[PageAt(pages, s).value] else s
  }

  function Target(m: map<string, string>, s: string): string {
    if s in m then m[s] else s
  }

  function Retargeted(links: set<LinkRow>, m: map<string, string>): set<LinkRow> {
    set l | l in links :: LinkRow(l.source, Target(m, l.target))
  }

  /** A page that already links to both ends of a moved path. */
  ghost predicate LinkClash(links: set<LinkRow>, m: map<string, string>) {
    exists l :: l in links && l.target in m && LinkRow(l.source, m[l.target]) in links
  }

  predicate IsEdited(page: Page, m: map<string, string>) {
    !page.binned && Substitute(page.markdown, m) != page.markdown
  }

  function Relinked(page: Page, m: map<string, string>, now: Time): Page {
    page.(markdown := Substitute(page.markdown, m), updatedAt := now)
  }

  /** The pages whose text links to a moved page, with the links renamed. */
  function EditedPages(pages: Pages, m: map<string, string>, now: Time): Pages {
    map id | id in pages && IsEdited(pages[id], m) :: Relinked(pages[id], m, now)
  }

  ghost function MoveAll(db: Tables, to: map<Id, Slug>, updateLinks: bool, now: Time): Tables {
    var m := PathMap(db.pages, to);
    var moved := Moved(db, to, now).(links := Retargeted(db.links, m));
    if updateLinks then Revised(moved, EditedPages(moved.pages, m, now)) else moved
  }

  ghost function MoveResult(db: Tables, now: Time, source: string, target: Path, children: bool, updateLinks: bool): Result {
    var source := SourcePath(source);
    if !Movable(source, target, children) then Failed(Invalid) else
    var to := Destinations(db.pages, source, target, children);
    if to == map[] then Failed(NotFound)
    else if SomeTaken(db.pages, db.aliases, to) || !Injective(to) then Failed(AlreadyExists)
    else if LinkClash(db.links, PathMap(db.pages, to)) then Failed(Constraint)
    else Done(MoveAll(db, to, updateLinks, now))
  }

  /** path.Base of a path without a trailing slash */
  function Base(s: string): (r: string)
    ensures |r| <= |s| && r == s[|s| - |r|..]
  {
    if '/' in s then Base(s[1..]) else s
  }

  ghost function BulkMoveOne(db: Tables, now: Time, slug: string, target: Path): Result {
    var source := SourcePath(slug);
    var destination := target + "/" + Base(source);
    if source == "" || source == destination then Failed(Invalid)
    else if !IsSlug(destination) then Failed(NotFound)
    else MoveResult(db, now, source, destination, false, true)
  }

  ghost function BulkMoveFrom(db: Tables, now: Time, slugs: seq<string>, target: Path): Result
    decreases |slugs|
  {
    if slugs == [] then Done(db) else
    match BulkMoveOne(db, now, slugs[0], target)
    case Failed(e) => Failed(e)
    case Done(next) => BulkMoveFrom(next, now, slugs[1..], target)
  }

  /** Some order of the paths in which no path follows a shorter one. */
  ghost predicate LongestFirst(slugs: seq<string>, ordered: seq<string>) {
    multiset(ordered) == multiset(slugs) && forall i, j :: 0 <= i < j < |ordered| ==> |ordered[i]| >= |ordered[j]|
  }

  ghost function BulkMoveResult(db: Tables, now: Time, slugs: seq<string>, target: Path): Result {
    if target == "" then Failed(Invalid) else BulkMoveFrom(db, now, slugs, target)
  }

  // ---- the recycle bin

  ghost function BinResult(db: Tables, slug: string): Result {
    match LiveAt(db.pages, slug)
    case None => Failed(NotFound)
    case Some(id) => Done(Put(db, id, db.pages[id].(binned := true)))
  }

  ghost function BinnedAt(pages: Pages, slug: string): (r: Option<Id>)
    ensures r.Some? ==> Holds(pages, r.value, slug) && pages[r.value].binned
  {
    var r := PageAt(pages, slug);
    if r.Some? && pages[r.value].binned then r else None
  }

  ghost function RestoreResult(db: Tables, slug: string): Result {
    match BinnedAt(db.pages, slug)
    case None => Failed(NotFound)
    case Some(id) => Done(Put(db, id, db.pages[id].(binned := false)))
  }

  ghost function PurgeResult(db: Tables, slug: string): Result {
    match BinnedAt(db.pages, slug)
    case None => Failed(NotFound)
    case Some(id) => Done(Purged(db, id))
  }

  // ---- reviews

  ghost predicate HasPending(reviews: Reviews, page: Id) {
    exists r :: r in reviews && reviews[r].page == page && reviews[r].status.Pending?
  }

  ghost function RequestResult(db: Tables, now: Time, slug: string, reviewers: seq<Id>, group: int): Result {
    match LiveAt(db.pages, slug)
    case None => Failed(NotFound)
    case Some(id) =>
      if HasPending(db.reviews, id) then Failed(ReviewPending) else
      var page := db.pages[id];
      var review := Review(id, Current(db.history, id), Pending, page.status, Elements(reviewers), group);
      Done(Put(Numbered(PutReview(db, db.nextId, review)), id, page.(status := Draft, updatedAt := now)))
  }

  /** The live page at a path that a review belongs to. */
  ghost function ReviewedPage(db: Tables, review: Id, slug: string): (r: Option<Id>)
    ensures r.Some? ==> Holds(db.pages, r.value, slug) && !db.pages[r.value].binned && review in db.reviews && db.reviews[review].page == r.value
  {
    var r := LiveAt(db.pages, slug);
    if r.Some? && review in db.reviews && db.reviews[review].page == r.value then r else None
  }

  ghost function UpdateResult(db: Tables, review: Id, slug: string, reviewers: seq<Id>, group: int): Result {
    if ReviewedPage(db, review, slug).None? then Failed(NotFound)
    else if !db.reviews[review].status.Pending? then Failed(ReviewClosed)
    else Done(PutReview(db, review, db.reviews[review].(reviewers := Elements(reviewers), group := group)))
  }

  ghost function CancelResult(db: Tables, now: Time, review: Id, slug: string): Result {
    match ReviewedPage(db, review, slug)
    case None => Failed(NotFound)
    case Some(id) =>
      var row, page := db.reviews[review], db.pages[id];
      if !row.status.Pending? then Failed(ReviewClosed) else
      var canceled := PutReview(db, review, row.(status := Canceled));
      if row.revision == Current(db.history, id) && page.status.Draft?
      then Done(Put(canceled, id, page.(status := row.previous, updatedAt := now)))
      else Done(canceled)
  }

  predicate Assigned(review: Review, user: Id, groups: set<int>, admin: bool) {
    admin || user in review.reviewers || (review.group != 0 && review.group in groups)
  }

  /** Freshness first, then openness, then the reviewer. */
  function DecisionError(review: Review, current: nat, isReviewer: bool): Option<Error> {
    if review.status.Superseded? || review.revision != current then Some(StaleReview)
    else if !review.status.Pending? then Some(ReviewClosed)
    else if !isReviewer then Some(Forbidden)
    else None
  }

  ghost function DecideResult(db: Tables, now: Time, review: Id, slug: string, user: Id, groups: set<int>, admin: bool, decision: Decision): Result {
    match ReviewedPage(db, review, slug)
    case None => Failed(NotFound)
    case Some(id) =>
      var row := db.reviews[review];
      match DecisionError(row, Current(db.history, id), Assigned(row, user, groups, admin))
      case Some(e) => Failed(e)
      case None =>
        match decision
        case RequestChanges => Done(PutReview(db, review, row.(status := ChangesRequested)))
        case Approve =>
          var page := db.pages[id].(status := Verified, reviewedAt := Some(now), updatedAt := now);
          Done(Put(PutReview(db, review, row.(status := Approved)), id, page))
  }

  // ---- suggestions

  /** The row constraint on inline suggestions. */
  predicate WellShaped(anchor: string, revision: nat, start: int, end: int, original: string) {
    TrimSpace(anchor) != "" && revision > 0 && 0 <= start < end && original != ""
  }

  ghost function SuggestResult(db: Tables, slug: string, anchor: string, s: Suggestion, expected: string): Result {
    match LiveAt(db.pages, slug)
    case None => Failed(NotFound)
    case Some(id) =>
      if db.pages[id].markdown != expected || Current(db.history, id) != s.revision then Failed(StaleSuggestion)
      else if !WellShaped(anchor, s.revision, s.start, s.end, s.original) then Failed(Constraint)
      else Done(Numbered(PutSuggestion(db, db.nextId, s.(page := id, applied := false))))
  }

  predicate MatchesSource(markdown: string, s: Suggestion) {
    0 <= s.start < s.end <= |markdown| && markdown[s.start..s.end] == s.original
  }

  function Splice(markdown: string, s: Suggestion): string
    requires MatchesSource(markdown, s)
  {
    markdown[..s.start] + s.replacement + markdown[s.end..]
  }

  function SuggestionError(s: Suggestion, current: nat, source: string, markdown: string): Option<Error> {
    if s.revision == 0 || s.applied then Some(Invalid)
    else if current != s.revision || !MatchesSource(source, s) || markdown != Splice(source, s) then Some(StaleSuggestion)
    else None
  }

  /** The page update shared by both kinds of suggestions, without the mark on the suggestion. */
  function Updated(db: Tables, now: Time, id: Id, markdown: string, render: string): Tables
    requires id in db.pages
  {
    Supersede(Revised(db, map[id := db.pages[id].(markdown := markdown, updatedAt := now, render := render)]), id)
  }

  ghost function ApplySuggestionResult(db: Tables, now: Time, slug: string, comment: Id, markdown: string, render: string, links: seq<string>): Result {
    match LiveAt(db.pages, slug)
    case None => Failed(NotFound)
    case Some(id) =>
      if comment !in db.suggestions || db.suggestions[comment].page != id then Failed(CommentNotFound) else
      var s := db.suggestions[comment];
      match SuggestionError(s, Current(db.history, id), db.pages[id].markdown, markdown)
      case Some(e) => Failed(e)
      case None =>
        var updated := Updated(db, now, id, markdown, render);
        Done(SetLinks(PutSuggestion(updated, comment, s.(applied := true)), id, Elements(links)))
  }

  // ---- review suggestions

  /** The row constraints on review comments. */
  predicate WellFormed(edit: Edit, body: string, isSuggestion: bool) {
    0 < edit.start <= edit.end && (body != "" || isSuggestion) && (isSuggestion ==> edit.newSide)
  }

  ghost function CommentResult(db: Tables, review: Id, slug: string, edit: Edit, body: string, isSuggestion: bool): Result {
    match ReviewedPage(db, review, slug)
    case None => Failed(NotFound)
    case Some(id) =>
      if !db.reviews[review].status.Pending? then Failed(ReviewClosed)
      else if db.reviews[review].revision != Current(db.history, id) then Failed(StaleReview)
      else if !WellFormed(edit, body, isSuggestion) then Failed(Constraint)
      else Done(Numbered(db.(feedback := db.feedback[db.nextId := Feedback(review, isSuggestion, edit, false)])))
  }

  predicate IsOpen(f: Feedback, review: Id) {
    f.request == review && f.isSuggestion && !f.applied
  }

  /** The suggestions a batch locks: the selected open ones, or all open ones. */
  function OpenFeedback(feedback: Comments, review: Id, ids: seq<int>, all: bool): set<Id> {
    set f | f in feedback && IsOpen(feedback[f], review) && (all || f in ids)
  }

  ghost predicate Distinct<T(!new)>(s: seq<T>) {
    forall i, j :: 0 <= i < j < |s| ==> s[i] != s[j]
  }

  /** The request names each locked suggestion exactly once. */
  ghost predicate SameIds(requested: seq<int>, locked: set<Id>) {
    Distinct(requested) && (forall k :: 0 <= k < |requested| ==> requested[k] > 0 && requested[k] in locked) && (forall i :: i in locked ==> i in requested)
  }

  function EditsOf(feedback: Comments, ids: seq<int>): seq<Edit>
    requires forall k :: 0 <= k < |ids| ==> ids[k] in feedback
  {
    seq(|ids|, k requires 0 <= k < |ids| => feedback[ids[k]].edit)
  }

  ghost function ApplyFeedbackResult(db: Tables, now: Time, review: Id, slug: string, revision: nat, ids: seq<int>, all: bool,
                                     markdown: string, render: string, links: seq<string>): Result {
    if ids == [] then Failed(Invalid) else
    match ReviewedPage(db, review, slug)
    case None => Failed(NotFound)
    case Some(id) =>
      if !db.reviews[review].status.Pending? then Failed(ReviewClosed)
      else if db.reviews[review].revision != revision || Current(db.history, id) != revision then Failed(StaleReview)
      else if !SameIds(ids, OpenFeedback(db.feedback, review, ids, all)) then Failed(if all then StaleReview else NotFound)
      else
        match Outcome(db.pages[id].markdown, multiset(EditsOf(db.feedback, ids)))
        case Rejected => Failed(SelectionRejected)
        case Ok(expected) =>
          if markdown != expected then Failed(StaleReview) else
          var updated := Updated(db, now, id, markdown, render);
          Done(SetLinks(MarkFeedback(updated, review, OpenFeedback(db.feedback, review, ids, all)), id, Elements(links)))
  }

  // ---- render artifacts

  /** Compare-and-set on the version token; a mismatch is not an error. */
  function SaveRenderResult(db: Tables, page: Id, expected: Time, render: string): Result {
    if page in db.pages && db.pages[page].updatedAt == expected
    then Done(Put(db, page, db.pages[page].(render := render)))
    else Done(db)
  }

  // ---- steps and runs

  ghost function Attempt(db: Tables, now: Time, c: Command): Result {
    match c
    case Save(input) => SaveResult(db, now, input)
    case SaveIfUnchanged(expected, input) => SaveIfUnchangedResult(db, now, expected, input)
    case Import(inputs) => ImportResult(db, now, inputs)
    case Move(source, target, children, updateLinks) => MoveResult(db, now, source, target, children, updateLinks)
    case BulkMove(slugs, target) => BulkMoveResult(db, now, slugs, target)
    case Bin(slug) => BinResult(db, slug)
    case Restore(slug) => RestoreResult(db, slug)
    case Purge(slug) => PurgeResult(db, slug)
    case Request(slug, reviewers, group) => RequestResult(db, now, slug, reviewers, group)
    case Update(review, slug, reviewers, group) => UpdateResult(db, review, slug, reviewers, group)
    case Cancel(review, slug) => CancelResult(db, now, review, slug)
    case Decide(review, slug, user, groups, admin, decision) => DecideResult(db, now, review, slug, user, groups, admin, decision)
    case Suggest(slug, anchor, revision, start, end, original, replacement, expected) =>
      SuggestResult(db, slug, anchor, Suggestion(0, revision, start, end, original, replacement, false), expected)
    case ApplySuggestion(slug, comment, markdown, render, links) => ApplySuggestionResult(db, now, slug, comment, markdown, render, links)
    case Comment(review, slug, edit, body, isSuggestion) => CommentResult(db, review, slug, edit, body, isSuggestion)
    case ApplyFeedback(review, slug, revision, ids, all, markdown, render, links) =>
      ApplyFeedbackResult(db, now, review, slug, revision, ids, all, markdown, render, links)
    case SaveRender(page, expected, render) => SaveRenderResult(db, page, expected, render)
  }

  /** The tables after one transaction. */
  ghost function After(db: Tables, now: Time, c: Command): Tables {
    match Attempt(db, now, c)
    case Done(next) => Issue(next, now)
    case Failed(_) => db
  }

  datatype Step = Step(now: Time, command: Command)

  ghost function Run(db: Tables, steps: seq<Step>): Tables
    decreases |steps|
  {
    if steps == [] then db else Run(After(db, steps[0].now, steps[0].command), steps[1..])
  }

  /** Each transaction's timestamp differs from those of the transactions committed before it. */
  ghost predicate Fresh(db: Tables, steps: seq<Step>)
    decreases |steps|
  {
    steps == [] || (steps[0].now !in db.issued && Fresh(After(db, steps[0].now, steps[0].command), steps[1..]))
  }
}
