/**
 The tables behind wiki pages, and the whole-table effects that page transactions are made of.
 Each column that only travels with its row is kept; timestamps are compared for equality only.
 */
module PageTables {
  import opened Options
  import opened WikiLinks
  import opened ReviewEdits

  type Id = int
  type Time = int

  datatype PageStatus = Draft | Verified | Deprecated | Archived

  /** The versioned metadata that travels with a page besides its path, status and review date. */
  datatype Details = Details(title: string, icon: string, language: string, tags: set<string>, groups: set<int>,
                             owner: int, interval: int, replacement: string, properties: map<string, string>)

  datatype Page = Page(slug: Slug, details: Details, status: PageStatus, reviewedAt: Option<Time>, markdown: string,
                       updatedAt: Time, binned: bool, render: string)

  datatype Revision = Revision(number: nat, markdown: string)

  datatype ReviewStatus = Pending | ChangesRequested | Approved | Canceled | Superseded

  /** `group` is 0 when no reviewer group is assigned. */
  datatype Review = Review(page: Id, revision: nat, status: ReviewStatus, previous: PageStatus, reviewers: set<Id>, group: int)

  /** An inline suggestion: the range of a revision's Markdown and what should replace it. */
  datatype Suggestion = Suggestion(page: Id, revision: nat, start: int, end: int, original: string, replacement: string, applied: bool)

  /** A review comment on a line range; `isSuggestion` makes its edit applicable. */
  datatype Feedback = Feedback(request: Id, isSuggestion: bool, edit: Edit, applied: bool)

  datatype LinkRow = LinkRow(source: Id, target: string)

  type Pages = map<Id, Page>
  type Aliases = map<string, Id>
  type History = map<Id, seq<Revision>>
  type Reviews = map<Id, Review>
  type Suggestions = map<Id, Suggestion>
  type Comments = map<Id, Feedback>

  /** `nextId` stands for the id sequences; `issued` holds the transaction timestamps committed so far. */
  datatype Tables = Tables(pages: Pages, aliases: Aliases, history: History, reviews: Reviews, suggestions: Suggestions,
                           feedback: Comments, links: set<LinkRow>, nextId: Id, issued: set<Time>)

  function Empty(): Tables {
    Tables(map[], map[], map[], map[], map[], map[], {}, 1, {})
  }

  // ---- lookups

  ghost predicate Holds(pages: Pages, id: Id, slug: string) {
    id in pages && pages[id].slug == slug
  }

  /** The page row at a path, in the bin or not. */
  ghost function PageAt(pages: Pages, slug: string): (r: Option<Id>)
    ensures r.Some? ==> Holds(pages, r.value, slug)
    ensures r.None? ==> forall id :: id in pages ==> pages[id].slug != slug
  {
    if exists id :: Holds(pages, id, slug) then
      var id :| Holds(pages, id, slug);
      Some(id)
    else
      assert forall id :: id in pages && pages[id].slug == slug ==> Holds(pages, id, slug);
      None
  }

  ghost function LiveAt(pages: Pages, slug: string): (r: Option<Id>)
    ensures r.Some? ==> Holds(pages, r.value, slug) && !pages[r.value].binned
  {
    var r := PageAt(pages, slug);
    if r.Some? && !pages[r.value].binned then r else None
  }

  /** A path that another page has now or had before. */
  ghost predicate Taken(pages: Pages, aliases: Aliases, id: Id, slug: string) {
    (exists other :: other != id && Holds(pages, other, slug)) || (slug in aliases && aliases[slug] != id)
  }

  /** What a path leads to: the live page there, or the live page that used to be there. */
  ghost function Resolve(pages: Pages, aliases: Aliases, slug: string): Option<Id> {
    if LiveAt(pages, slug).Some? then LiveAt(pages, slug)
    else if slug in aliases && aliases[slug] in pages && !pages[aliases[slug]].binned then Some(aliases[slug])
    else None
  }

  function Rows(history: History, id: Id): seq<Revision> {
    if id in history then history[id] else []
  }

  function Max(a: nat, b: nat): nat {
    if a < b then b else a
  }

  /** coalesce(max(revision_number), 0) */
  function Latest(rows: seq<Revision>): nat {
    if rows == [] then 0 else Max(rows[|rows| - 1].number, Latest(rows[..|rows| - 1]))
  }

  function Current(history: History, id: Id): nat {
    Latest(Rows(history, id))
  }

  // ---- effects

  function Append(history: History, id: Id, markdown: string): History {
    history[id := Rows(history, id) + [Revision(Current(history, id) + 1, markdown)]]
  }

  /** Page rows replaced. */
  function Put(db: Tables, id: Id, page: Page): Tables {
    db.(pages := db.pages[id := page])
  }

  /** Page rows replaced, and a revision appended for each of them. */
  function Revised(db: Tables, rows: Pages): Tables {
    db.(pages := db.pages + rows,
        history := map id | id in db.history.Keys + rows.Keys ::
          if id in rows then Append(db.history, id, rows[id].markdown)[id] else db.history[id])
  }

  /** Pages at their new paths. */
  function MovedPages(pages: Pages, to: map<Id, Slug>, now: Time): Pages {
    map id | id in pages :: if id in to then pages[id].(slug := to[id], updatedAt := now) else pages[id]
  }

  ghost function Goals(to: map<Id, Slug>): set<string> {
    set id | id in to :: to[id]
  }

  ghost function OldPaths(pages: Pages, to: map<Id, Slug>): set<string> {
    set id | id in to && id in pages :: pages[id].slug
  }

  /** Paths left behind become aliases; paths taken up again stop being aliases. */
  ghost function MovedAliases(pages: Pages, aliases: Aliases, to: map<Id, Slug>): Aliases {
    map s | s in aliases.Keys - Goals(to) + OldPaths(pages, to) ::
      if PageAt(pages, s).Some? && PageAt(pages, s).value in to then PageAt(pages, s).value
      else if s in aliases then aliases[s] else 0
  }

  ghost function Moved(db: Tables, to: map<Id, Slug>, now: Time): Tables {
    db.(pages := MovedPages(db.pages, to, now), aliases := MovedAliases(db.pages, db.aliases, to))
  }

  /** Open reviews of a page closed by a new revision. */
  function Closed(reviews: Reviews, page: Id): Reviews {
    map r | r in reviews ::
      if reviews[r].page == page && (reviews[r].status.Pending? || reviews[r].status.ChangesRequested?)
      then reviews[r].(status := Superseded) else reviews[r]
  }

  function Supersede(db: Tables, page: Id): Tables {
    db.(reviews := Closed(db.reviews, page))
  }

  function SetLinks(db: Tables, page: Id, targets: set<string>): Tables {
    db.(links := (set l | l in db.links && l.source != page) + (set t | t in targets :: LinkRow(page, t)))
  }

  function Created(db: Tables, page: Page): Tables {
    db.(pages := db.pages[db.nextId := page], history := db.history[db.nextId := [Revision(1, page.markdown)]], nextId := db.nextId + 1)
  }

  function ReviewsOf(reviews: Reviews, page: Id): set<Id> {
    set r | r in reviews && reviews[r].page == page
  }

  /** A page removed together with every row that references it. */
  function Purged(db: Tables, page: Id): Tables {
    db.(pages := db.pages - {page},
        aliases := map s | s in db.aliases && db.aliases[s] != page :: db.aliases[s],
        history := db.history - {page},
        reviews := map r | r in db.reviews && db.reviews[r].page != page :: db.reviews[r],
        suggestions := map c | c in db.suggestions && db.suggestions[c].page != page :: db.suggestions[c],
        feedback := map f | f in db.feedback && db.feedback[f].request !in ReviewsOf(db.reviews, page) :: db.feedback[f],
        links := set l | l in db.links && l.source != page)
  }

  function PutReview(db: Tables, id: Id, review: Review): Tables {
    db.(reviews := db.reviews[id := review])
  }

  function PutSuggestion(db: Tables, id: Id, s: Suggestion): Tables {
    db.(suggestions := db.suggestions[id := s])
  }

  /** The next id of a sequence. */
  function Numbered(db: Tables): Tables {
    db.(nextId := db.nextId + 1)
  }

  /** Review comments marked as applied. */
  function MarkFeedback(db: Tables, request: Id, ids: set<Id>): Tables {
    db.(feedback := map f | f in db.feedback ::
          if f in ids && db.feedback[f].request == request then db.feedback[f].(applied := true) else db.feedback[f])
  }

  /** The transaction's timestamp counts as handed out once it commits. */
  function Issue(db: Tables, now: Time): Tables {
    db.(issued := db.issued + {now})
  }
}
