/** Table statements executed one at a time, in any order, add up to the simultaneous effect. */
module PageStatements {
  import opened Options
  import opened WikiLinks
  import opened PageTables
  import opened PageCommands
  import opened PageInvariant
  import opened PageRuns
  import opened PageLaws

  function WithoutAlias(aliases: Aliases, id: Id, slug: string): Aliases {
    if slug in aliases && aliases[slug] == id then aliases - {slug} else aliases
  }

  /** The moves of the pages handled so far. */
  ghost function Part(to: map<Id, Slug>, done: set<Id>): map<Id, Slug> {
    map id | id in to && id in done :: to[id]
  }

  lemma PartCanMove(pages: Pages, aliases: Aliases, to: map<Id, Slug>, done: set<Id>)
    requires CanMove(pages, aliases, to)
    ensures CanMove(pages, aliases, Part(to, done))
  {
    hide Taken;
  }

  /** One more page: its own alias at the destination goes, the path it leaves becomes an alias. */
  lemma NextAliases(pages: Pages, aliases: Aliases, to: map<Id, Slug>, done: set<Id>, id: Id)
    requires PathsOk(pages, aliases) && CanMove(pages, aliases, to) && id in to && id !in done
    ensures id in pages
    ensures var before := MovedAliases(pages, aliases, Part(to, done));
      && pages[id].slug !in before
      && MovedAliases(pages, aliases, Part(to, done + {id})) == WithoutAlias(before, id, to[id])[pages[id].slug := id]
  {
    hide PageAt, Taken, MovedAliases, CanMove;
    InPages(pages, aliases, to, id);
    var before, after := MovedAliases(pages, aliases, Part(to, done)), MovedAliases(pages, aliases, Part(to, done + {id}));
    var expected := WithoutAlias(before, id, to[id])[pages[id].slug := id];
    PartCanMove(pages, aliases, to, done);
    PartCanMove(pages, aliases, to, done + {id});
    MovedAliasesAt(pages, aliases, Part(to, done), pages[id].slug);
    AtPath(pages, aliases, id);
    forall s
      ensures s in after <==> s in expected
      ensures s in after && s in expected ==> after[s] == expected[s]
    {
      NextAlias(pages, aliases, to, done, id, s);
    }
    assert after == expected;
  }

  lemma NextAlias(pages: Pages, aliases: Aliases, to: map<Id, Slug>, done: set<Id>, id: Id, s: string)
    requires PathsOk(pages, aliases) && CanMove(pages, aliases, to) && id in to && id !in done && id in pages
    ensures var before, after := MovedAliases(pages, aliases, Part(to, done)), MovedAliases(pages, aliases, Part(to, done + {id}));
      var expected := WithoutAlias(before, id, to[id])[pages[id].slug := id];
      (s in after <==> s in expected) && (s in after && s in expected ==> after[s] == expected[s])
  {
    hide PageAt, Taken, MovedAliases, CanMove;
    PartCanMove(pages, aliases, to, done);
    PartCanMove(pages, aliases, to, done + {id});
    MovedAliasesAt(pages, aliases, Part(to, done), s);
    MovedAliasesAt(pages, aliases, Part(to, done + {id}), s);
    FreeDestination(pages, aliases, to, id);
    AtPath(pages, aliases, id);
    if PageAt(pages, s).Some? {
      HoldsAt(pages, s);
    }
    assert s in Goals(Part(to, done + {id})) <==> s in Goals(Part(to, done)) || s == to[id] by {
      GoalsGrow(to, done, id, s);
    }
  }

  lemma GoalsGrow(to: map<Id, Slug>, done: set<Id>, id: Id, s: string)
    requires id in to
    ensures s in Goals(Part(to, done + {id})) <==> s in Goals(Part(to, done)) || s == to[id]
  {
    var more := Part(to, done + {id});
    if s == to[id] {
      assert id in more && more[id] == s;
    }
    if s in Goals(Part(to, done)) {
      var i :| i in Part(to, done) && Part(to, done)[i] == s;
      assert i in more && more[i] == s;
    }
    if s in Goals(more) && s != to[id] {
      var i :| i in more && more[i] == s;
      assert i in Part(to, done) && Part(to, done)[i] == s;
    }
  }

  lemma OneMove(pages: Pages, aliases: Aliases, id: Id, slug: Slug)
    requires PathsOk(pages, aliases) && id in pages && pages[id].slug != slug && !Taken(pages, aliases, id, slug)
    ensures MovedAliases(pages, aliases, map[id := slug]) == WithoutAlias(aliases, id, slug)[pages[id].slug := id]
  {
    hide MovedAliases, PathsOk, Taken;
    var to := map[id := slug];
    assert CanMove(pages, aliases, to);
    assert Part(to, {}) == map[] && Part(to, {} + {id}) == to;
    NextAliases(pages, aliases, to, {}, id);
    NoAliasMoves(pages, aliases);
  }

  lemma NoAliasMoves(pages: Pages, aliases: Aliases)
    requires PathsOk(pages, aliases)
    ensures MovedAliases(pages, aliases, map[]) == aliases
  {
  }

  lemma PartOfPart(to: map<Id, Slug>, done: set<Id>, more: set<Id>)
    requires done <= more
    ensures Part(Part(to, more), done) == Part(to, done)
  {
  }

  /** The statements that move one more page, after the pages of `done`. */
  lemma NextMove(pages: Pages, aliases: Aliases, to: map<Id, Slug>, done: set<Id>, id: Id, now: Time)
    requires PathsOk(pages, aliases) && CanMove(pages, aliases, Part(to, done + {id})) && id in to && id !in done
    ensures var before, was := MovedAliases(pages, aliases, Part(to, done)), MovedPages(pages, Part(to, done), now);
      && id in pages && id in was && pages[id].slug !in before
      && MovedAliases(pages, aliases, Part(to, done + {id})) == WithoutAlias(before, id, to[id])[pages[id].slug := id]
      && MovedPages(pages, Part(to, done + {id}), now) == was[id := was[id].(slug := to[id], updatedAt := now)]
  {
    hide MovedAliases, CanMove, PathsOk, WithoutAlias;
    var more := Part(to, done + {id});
    PartOfPart(to, done, done + {id});
    PartOfPart(to, done + {id}, done + {id});
    NextAliases(pages, aliases, more, done, id);
    assert MovedPages(pages, more, now) == MovedPages(pages, Part(to, done), now)[id := MovedPages(pages, Part(to, done), now)[id].(slug := to[id], updatedAt := now)];
  }

  /** Nothing but an earlier move can have taken the destination. */
  lemma PathClash(pages: Pages, aliases: Aliases, to: map<Id, Slug>, done: set<Id>, now: Time, id: Id, other: Id)
    requires Free(pages, aliases, to) && id in to && other in pages && other != id
    requires MovedPages(pages, Part(to, done), now)[other].slug == to[id]
    ensures other in to && to[other] == to[id] && !Injective(to)
  {
    hide Taken;
    FreeGoal(pages, aliases, to, id);
  }

  lemma NoPathClash(pages: Pages, aliases: Aliases, to: map<Id, Slug>, done: set<Id>, now: Time, id: Id)
    requires Free(pages, aliases, to) && id in to && Injective(Part(to, done))
    requires forall other :: other in pages && other != id ==> MovedPages(pages, Part(to, done), now)[other].slug != to[id]
    ensures CanMove(pages, aliases, Part(to, done + {id}))
  {
    hide Taken, Injective;
    forall i | i in Part(to, done) && i != id
      ensures to[i] != to[id]
    {
      assert i in pages;
      assert MovedPages(pages, Part(to, done), now)[i].slug == to[i];
    }
    PartInjective(to, done, id);
  }

  lemma PartInjective(to: map<Id, Slug>, done: set<Id>, id: Id)
    requires Injective(Part(to, done)) && id in to && forall i :: i in Part(to, done) && i != id ==> to[i] != to[id]
    ensures Injective(Part(to, done + {id}))
  {
    assert forall i :: i in Part(to, done + {id}) && i != id ==> i in Part(to, done);
  }

  // ---- link rows

  /** What one statement does to the link rows. */
  function RetargetOne(links: set<LinkRow>, from: string, to: string): set<LinkRow> {
    set l | l in links :: if l.target == from then LinkRow(l.source, to) else l
  }

  ghost function Paths(m: map<string, string>, done: set<string>): map<string, string> {
    map s | s in m && s in done :: m[s]
  }

  /** Distinct old paths go to distinct new ones, and none goes to an old one. */
  ghost predicate Apart(m: map<string, string>) {
    && (forall s, t :: s in m && t in m && m[s] == m[t] ==> s == t)
    && (forall s :: s in m ==> m[s] !in m)
  }

  lemma NextTarget(m: map<string, string>, done: set<string>, s: string, t: string)
    requires Apart(m) && s in m && s !in done
    ensures Target(Paths(m, done + {s}), t) == if Target(Paths(m, done), t) == s then m[s] else Target(Paths(m, done), t)
  {
  }

  lemma NextRetarget(links: set<LinkRow>, m: map<string, string>, done: set<string>, s: string)
    requires Apart(m) && s in m && s !in done
    ensures Retargeted(links, Paths(m, done + {s})) == RetargetOne(Retargeted(links, Paths(m, done)), s, m[s])
  {
    hide Target, Paths, Apart;
    var before, after := Paths(m, done), Paths(m, done + {s});
    var result := RetargetOne(Retargeted(links, before), s, m[s]);
    forall l | l in links
      ensures LinkRow(l.source, Target(after, l.target)) in result
    {
      NextTarget(m, done, s, l.target);
      assert LinkRow(l.source, Target(before, l.target)) in Retargeted(links, before);
    }
    forall r | r in result
      ensures r in Retargeted(links, after)
    {
      var k :| k in Retargeted(links, before) && r == if k.target == s then LinkRow(k.source, m[s]) else k;
      var l :| l in links && k == LinkRow(l.source, Target(before, l.target));
      NextTarget(m, done, s, l.target);
    }
  }

  /** The key violation of one statement is a clash in the rows as they were. */
  lemma NextClash(links: set<LinkRow>, m: map<string, string>, done: set<string>, s: string, source: Id)
    requires Apart(m) && s in m && s !in done
    ensures LinkRow(source, s) in Retargeted(links, Paths(m, done)) <==> LinkRow(source, s) in links
    ensures LinkRow(source, m[s]) in Retargeted(links, Paths(m, done)) <==> LinkRow(source, m[s]) in links
  {
    var now := Retargeted(links, Paths(m, done));
    forall t | t == s || t == m[s]
      ensures LinkRow(source, t) in now <==> LinkRow(source, t) in links
    {
      assert Target(Paths(m, done), t) == t;
      if LinkRow(source, t) in now {
        var l :| l in links && LinkRow(source, t) == LinkRow(l.source, Target(Paths(m, done), l.target));
        assert l.target == t;
      }
      if LinkRow(source, t) in links {
        var l := LinkRow(source, t);
        assert LinkRow(l.source, Target(Paths(m, done), l.target)) in now;
      }
    }
  }

  /** No page links to both ends of a renamed path, among the renamed paths of `done`. */
  ghost predicate NoClash(links: set<LinkRow>, m: map<string, string>, done: set<string>) {
    forall l :: l in links && l.target in done && l.target in m ==> LinkRow(l.source, m[l.target]) !in links
  }

  /** A statement without a key violation shows that its path has no clash. */
  lemma NoClashNext(links: set<LinkRow>, m: map<string, string>, done: set<string>, s: string)
    requires Apart(m) && s in m && s !in done && NoClash(links, m, done)
    requires var now := Retargeted(links, Paths(m, done)); forall l :: l in now && l.target == s ==> LinkRow(l.source, m[s]) !in now
    ensures NoClash(links, m, done + {s})
  {
    hide Retargeted, Apart, Paths;
    forall l | l in links && l.target == s
      ensures LinkRow(l.source, m[s]) !in links
    {
      NextClash(links, m, done, s, l.source);
      assert l == LinkRow(l.source, s);
    }
  }

  lemma ClashFound(links: set<LinkRow>, m: map<string, string>, done: set<string>, s: string, l: LinkRow)
    requires Apart(m) && s in m && s !in done && l.target == s
    requires var now := Retargeted(links, Paths(m, done)); l in now && LinkRow(l.source, m[s]) in now
    ensures LinkClash(links, m)
  {
    hide Retargeted, Apart, Paths;
    NextClash(links, m, done, s, l.source);
    assert l == LinkRow(l.source, s);
  }

  // ---- link texts

  datatype MovedPage = MovedPage(id: Id, path: PathChange)

  function Changes(moved: seq<MovedPage>): (r: seq<PathChange>)
    ensures |r| == |moved|
    ensures forall k :: 0 <= k < |moved| ==> r[k] == moved[k].path
  {
    seq(|moved|, k requires 0 <= k < |moved| => moved[k].path)
  }

  /** The rows loaded for a move are its destinations, each page once. */
  ghost predicate Loaded(moved: seq<MovedPage>, pages: Pages, to: map<Id, Slug>) {
    && (forall k :: 0 <= k < |moved| ==> Loads(moved[k], pages, to))
    && (forall j, k :: 0 <= j < k < |moved| ==> moved[j].id != moved[k].id)
    && (forall i :: i in to ==> exists k :: 0 <= k < |moved| && moved[k].id == i)
  }

  ghost predicate Loads(item: MovedPage, pages: Pages, to: map<Id, Slug>) {
    item.id in to && item.id in pages && item.path == PathChange(pages[item.id].slug, to[item.id])
  }

  ghost predicate ShortestFirst(moved: seq<MovedPage>) {
    forall j, k :: 0 <= j < k < |moved| ==> |moved[j].path.old_| <= |moved[k].path.old_|
  }

  predicate IsShortest(pages: Pages, ids: set<Id>, id: Id) {
    id in ids && id in pages && forall i :: i in ids ==> i in pages && |pages[id].slug| <= |pages[i].slug|
  }

  lemma {:induction false} SomeShortest(pages: Pages, ids: set<Id>)
    requires ids <= pages.Keys && exists id :: id in ids
    ensures exists id :: id in ids && IsShortest(pages, ids, id)
    decreases ids
  {
    hide IsShortest;
    var id :| id in ids;
    var rest := ids - {id};
    if exists i :: i in rest {
      SomeShortest(pages, rest);
      var other :| IsShortest(pages, rest, other);
      ShorterOf(pages, rest, id, other);
      assert rest + {id} == ids;
    } else {
      OnlyOne(pages, ids, id);
    }
  }

  lemma ShorterOf(pages: Pages, rest: set<Id>, id: Id, other: Id)
    requires IsShortest(pages, rest, other) && id in pages
    ensures IsShortest(pages, rest + {id}, id) || IsShortest(pages, rest + {id}, other)
    ensures other in rest
  {
  }

  lemma OnlyOne(pages: Pages, ids: set<Id>, id: Id)
    requires id in ids && id in pages && !(exists i :: i in ids - {id})
    ensures IsShortest(pages, ids, id)
  {
    assert forall i :: i in ids ==> i == id || i in ids - {id};
  }

  /** The rows loaded while some are left, none of them shorter. */
  ghost predicate LoadedBut(moved: seq<MovedPage>, pages: Pages, to: map<Id, Slug>, todo: set<Id>) {
    && todo <= to.Keys && to.Keys <= pages.Keys && ShortestFirst(moved)
    && (forall k :: 0 <= k < |moved| ==> Loads(moved[k], pages, to) && moved[k].id !in todo)
    && (forall j, k :: 0 <= j < k < |moved| ==> moved[j].id != moved[k].id)
    && (forall i :: i in to && i !in todo ==> exists k :: 0 <= k < |moved| && moved[k].id == i)
    && (forall k, i :: 0 <= k < |moved| && i in todo ==> |moved[k].path.old_| <= |pages[i].slug|)
  }

  lemma LoadNext(moved: seq<MovedPage>, pages: Pages, to: map<Id, Slug>, todo: set<Id>, id: Id)
    requires LoadedBut(moved, pages, to, todo) && IsShortest(pages, todo, id) && id in to
    ensures LoadedBut(moved + [MovedPage(id, PathChange(pages[id].slug, to[id]))], pages, to, todo - {id})
  {
    hide Loads, ShortestFirst;
    var item := MovedPage(id, PathChange(pages[id].slug, to[id]));
    assert Loads(item, pages, to) by {
      LoadsRow(pages, to, id);
    }
    StillShortestFirst(moved, item);
    StillLoaded(moved, item, to, todo);
  }

  lemma LoadsRow(pages: Pages, to: map<Id, Slug>, id: Id)
    requires id in pages && id in to
    ensures Loads(MovedPage(id, PathChange(pages[id].slug, to[id])), pages, to)
  {
  }

  lemma StillShortestFirst(moved: seq<MovedPage>, item: MovedPage)
    requires ShortestFirst(moved) && forall k :: 0 <= k < |moved| ==> |moved[k].path.old_| <= |item.path.old_|
    ensures ShortestFirst(moved + [item])
  {
  }

  lemma StillLoaded(moved: seq<MovedPage>, item: MovedPage, to: map<Id, Slug>, todo: set<Id>)
    requires forall i :: i in to && i !in todo ==> exists k :: 0 <= k < |moved| && moved[k].id == i
    ensures forall i :: i in to && i !in todo - {item.id} ==> exists k :: 0 <= k < |moved + [item]| && (moved + [item])[k].id == i
  {
    var more := moved + [item];
    forall i | i in to && i !in todo - {item.id}
      ensures exists k :: 0 <= k < |more| && more[k].id == i
    {
      if i == item.id {
        assert more[|moved|].id == i;
      } else {
        var k :| 0 <= k < |moved| && moved[k].id == i;
        assert more[k].id == i;
      }
    }
  }

  lemma NothingLoaded(pages: Pages, to: map<Id, Slug>, todo: set<Id>)
    requires todo == to.Keys <= pages.Keys
    ensures LoadedBut([], pages, to, todo)
  {
  }

  lemma LoadedAll(moved: seq<MovedPage>, pages: Pages, to: map<Id, Slug>, todo: set<Id>)
    requires LoadedBut(moved, pages, to, todo) && !(exists id :: id in todo)
    ensures Loaded(moved, pages, to) && ShortestFirst(moved)
  {
    hide Loads;
  }

  /** The loaded rows spell out the move's substitution. */
  ghost predicate Spells(moved: seq<MovedPage>, m: map<string, string>) {
    && Apart(m)
    && (forall k :: 0 <= k < |moved| ==> moved[k].path.old_ in m && m[moved[k].path.old_] == moved[k].path.new_)
    && (forall j, k :: 0 <= j < k < |moved| ==> moved[j].path.old_ != moved[k].path.old_)
    && (forall s :: s in m ==> exists k :: 0 <= k < |moved| && moved[k].path.old_ == s)
  }

  lemma LoadedSpells(moved: seq<MovedPage>, pages: Pages, aliases: Aliases, to: map<Id, Slug>)
    requires PathsOk(pages, aliases) && CanMove(pages, aliases, to) && Loaded(moved, pages, to)
    ensures Spells(moved, PathMap(pages, to))
  {
    hide PageAt, Taken, CanMove, PathMap;
    var m := PathMap(pages, to);
    forall k | 0 <= k < |moved|
      ensures moved[k].path.old_ in m && m[moved[k].path.old_] == moved[k].path.new_
    {
      assert Loads(moved[k], pages, to);
      AtPath(pages, aliases, moved[k].id);
      PathMapAt(pages, aliases, to, moved[k].path.old_);
    }
    forall s | s in m
      ensures exists k :: 0 <= k < |moved| && moved[k].path.old_ == s
    {
      PathMapAt(pages, aliases, to, s);
      var i := PageAt(pages, s).value;
      var k :| 0 <= k < |moved| && moved[k].id == i;
      assert Loads(moved[k], pages, to);
    }
    PathMapApart(pages, aliases, to);
    forall j, k | 0 <= j < k < |moved|
      ensures moved[j].path.old_ != moved[k].path.old_
    {
      assert Loads(moved[j], pages, to) && Loads(moved[k], pages, to);
    }
  }

  lemma PathMapApart(pages: Pages, aliases: Aliases, to: map<Id, Slug>)
    requires PathsOk(pages, aliases) && CanMove(pages, aliases, to)
    ensures Apart(PathMap(pages, to))
  {
    hide PageAt, Taken, PathMap;
    var m := PathMap(pages, to);
    forall s, t | s in m && t in m && m[s] == m[t]
      ensures s == t
    {
      PathMapAt(pages, aliases, to, s);
      PathMapAt(pages, aliases, to, t);
    }
    forall s | s in m
      ensures m[s] !in m
    {
      PathMapAt(pages, aliases, to, s);
      PathMapAt(pages, aliases, to, m[s]);
      FreeDestination(pages, aliases, to, PageAt(pages, s).value);
    }
  }

  /** Rewriting with the loaded rows, one after the other, is the move's substitution. */
  lemma SpelledSubstitution(moved: seq<MovedPage>, m: map<string, string>, markdown: string)
    requires Spells(moved, m)
    ensures PageByPage(markdown, Changes(moved)) == Substitute(markdown, m)
  {
    hide PageByPage, Substitute, Spells, Changes, Independent, Substitution;
    SpelledIndependent(moved, m);
    PageByPageIsSimultaneous(markdown, Changes(moved));
    SpelledMap(moved, m);
  }

  /** The next loaded row is a renamed path that no earlier row has. */
  lemma SpelledRow(moved: seq<MovedPage>, m: map<string, string>, n: nat, done: set<string>)
    requires Spells(moved, m) && n < |moved| && done == set k | 0 <= k < n :: moved[k].path.old_
    ensures var path := moved[n].path; Apart(m) && path.old_ in m && m[path.old_] == path.new_ && path.old_ !in done
    ensures done + {moved[n].path.old_} == set k | 0 <= k < n + 1 :: moved[k].path.old_
  {
    hide Apart;
  }

  lemma SpelledIndependent(moved: seq<MovedPage>, m: map<string, string>)
    requires Spells(moved, m)
    ensures Independent(Changes(moved))
  {
  }

  lemma SpelledMap(moved: seq<MovedPage>, m: map<string, string>)
    requires Spells(moved, m) && Independent(Changes(moved))
    ensures Substitution(Changes(moved)) == m
  {
    hide Independent, Substitution;
    var moves := Changes(moved);
    SubstitutionIs(moves);
    var sub := Substitution(moves);
    forall s
      ensures s in sub <==> s in m
      ensures s in sub && s in m ==> sub[s] == m[s]
    {
      if s in m {
        var k :| 0 <= k < |moved| && moved[k].path.old_ == s;
        assert moves[k].old_ == s;
      }
    }
  }

  /** Pages that the `[[` filter leaves out have nothing to rewrite. */
  lemma NothingToRewrite(markdown: string, m: map<string, string>)
    requires !HasOpening(markdown)
    ensures Substitute(markdown, m) == markdown
  {
    hide HasOpening, Retarget, Links;
    NoOpeningNoLink(markdown);
    KeepAll(markdown, Renamed(m));
  }

  ghost function RowsPart(rows: Pages, todo: set<Id>): Pages {
    map id | id in rows && id !in todo :: rows[id]
  }

  /** The statements that revise one more page. */
  lemma NextRevision(db: Tables, rows: Pages, todo: set<Id>, id: Id)
    requires rows.Keys <= db.pages.Keys && db.history.Keys == db.pages.Keys && id in rows && id in todo
    ensures var before := Revised(db, RowsPart(rows, todo));
      && id in before.pages && before.pages[id] == db.pages[id]
      && Revised(db, RowsPart(rows, todo - {id})) == before.(pages := before.pages[id := rows[id]], history := Append(before.history, id, rows[id].markdown))
  {
    hide Current;
    var before, after := Revised(db, RowsPart(rows, todo)), Revised(db, RowsPart(rows, todo - {id}));
    assert id in db.history.Keys && id in before.history && before.history[id] == db.history[id];
    SameCurrent(before.history, db.history, id);
    assert after.pages == before.pages[id := rows[id]];
    assert after.history == Append(before.history, id, rows[id].markdown);
  }

  lemma SameCurrent(history: History, other: History, id: Id)
    requires id in history && id in other && history[id] == other[id]
    ensures Current(history, id) == Current(other, id) && Rows(history, id) == Rows(other, id)
  {
  }

  // ---- saving

  lemma RevisedOne(db: Tables, id: Id, page: Page)
    requires id in db.pages && id in db.history
    ensures Revised(db, map[id := page]) == db.(pages := db.pages[id := page], history := Append(db.history, id, page.markdown))
  {
    hide Current;
    var revised := Revised(db, map[id := page]);
    assert revised.history == Append(db.history, id, page.markdown);
    assert revised.pages == db.pages[id := page];
  }

  lemma MovedOne(pages: Pages, id: Id, slug: Slug, now: Time)
    requires id in pages
    ensures MovedPages(pages, map[id := slug], now) == pages[id := pages[id].(slug := slug, updatedAt := now)]
  {
  }

  /** What a save does once the page row is written. */
  function FinishedSave(db: Tables, before: Option<Page>, id: Id, targets: set<string>): Tables
    requires id in db.pages
  {
    var linked, page := SetLinks(db, id, targets), db.pages[id];
    if before.Some? && SameContent(before.value, page) then linked.(pages := db.pages[id := page.(updatedAt := before.value.updatedAt)])
    else linked.(history := Append(db.history, id, page.markdown), reviews := Closed(db.reviews, id))
  }

  /** The page row and the aliases that an edit writes. */
  ghost function WrittenRow(db: Tables, id: Id, input: SaveInput, now: Time): (r: Tables)
    requires id in db.pages
    ensures id in r.pages
  {
    var aliases := if db.pages[id].slug == input.slug then db.aliases else MovedAliases(db.pages, db.aliases, map[id := input.slug]);
    db.(pages := db.pages[id := EditedPage(db.pages[id], input, now)], aliases := aliases)
  }

  /** The statements of a save that edits a page. */
  lemma EditStatements(db: Tables, id: Id, input: SaveInput, now: Time)
    requires Inv(db) && id in db.pages
    requires db.pages[id].slug == input.slug || !Taken(db.pages, db.aliases, id, input.slug)
    ensures EditPage(db, id, input, now) == Done(FinishedSave(WrittenRow(db, id, input, now), Some(db.pages[id]), id, Elements(input.links)))
  {
    hide Inv, MovedAliases, Taken, Append, Closed, SameContent, Elements, Revised, MovedPages;
    SameKeys(db);
    var before, after := db.pages[id], EditedPage(db.pages[id], input, now);
    MovedOne(db.pages, id, input.slug, now);
    var renamed := if before.slug == input.slug then db else Moved(db, map[id := input.slug], now);
    RevisedOne(SetLinks(renamed, id, Elements(input.links)), id, after);
    assert renamed.pages[id := after] == db.pages[id := after];
    assert renamed.pages[id := after.(updatedAt := before.updatedAt)] == db.pages[id := after][id := after.(updatedAt := before.updatedAt)];
  }

  lemma TakenEdit(db: Tables, id: Id, input: SaveInput, now: Time)
    requires id in db.pages && db.pages[id].slug != input.slug && Taken(db.pages, db.aliases, id, input.slug)
    ensures EditPage(db, id, input, now) == Failed(AlreadyExists)
  {
  }

  lemma EditedRenamed(page: Page, input: SaveInput, now: Time)
    ensures EditedPage(page.(slug := input.slug), input, now) == EditedPage(page, input, now)
  {
  }

  lemma NotReviewed(db: Tables)
    requires ReviewsOk(db.history, db.reviews) && IdsOk(db) && db.history.Keys == db.pages.Keys
    ensures db.nextId !in db.history && Closed(db.reviews, db.nextId) == db.reviews
  {
    var closed := Closed(db.reviews, db.nextId);
    assert db.nextId !in db.pages;
    assert forall r :: r in db.reviews ==> closed[r] == db.reviews[r];
  }

  /** The statements of a save that creates a page. */
  lemma InsertStatements(db: Tables, input: SaveInput, now: Time)
    requires Inv(db)
    ensures var created := db.(pages := db.pages[db.nextId := NewPage(input, now)], nextId := db.nextId + 1);
      FinishedSave(created, None, db.nextId, Elements(input.links)) == SetLinks(Created(db, NewPage(input, now)), db.nextId, Elements(input.links))
  {
    hide PathsOk, ReviewsOk, SuggestionsOk, FeedbackOk, HeadAgrees, IdsOk, Closed, Elements;
    NotReviewed(db);
    assert Append(db.history, db.nextId, input.markdown)[db.nextId] == [Revision(1, input.markdown)];
  }

  // ---- first and last rounds

  lemma NothingMoved(pages: Pages, aliases: Aliases, to: map<Id, Slug>, now: Time)
    requires PathsOk(pages, aliases)
    ensures Part(to, {}) == map[] && MovedPages(pages, Part(to, {}), now) == pages && MovedAliases(pages, aliases, Part(to, {})) == aliases
    ensures CanMove(pages, aliases, Part(to, {}))
  {
    assert Part(to, {}) == map[];
    NoAliasMoves(pages, aliases);
  }

  lemma SamePages(pages: Pages, to: map<Id, Slug>, now: Time)
    ensures MovedPages(pages, to, now).Keys == pages.Keys
  {
  }

  lemma NothingRetargeted(links: set<LinkRow>, m: map<string, string>)
    ensures Retargeted(links, Paths(m, {})) == links
  {
    forall l | l in links
      ensures l in Retargeted(links, Paths(m, {}))
    {
      assert l == LinkRow(l.source, Target(Paths(m, {}), l.target));
    }
  }

  lemma AllSpelled(moved: seq<MovedPage>, m: map<string, string>, done: set<string>)
    requires Spells(moved, m) && done == set k | 0 <= k < |moved| :: moved[k].path.old_
    ensures Paths(m, done) == m && forall s :: s in m ==> s in done
  {
    forall s | s in m
      ensures s in done
    {
      var k :| 0 <= k < |moved| && moved[k].path.old_ == s;
    }
  }

  lemma AllMoved(moved: seq<MovedPage>, pages: Pages, to: map<Id, Slug>, done: set<Id>)
    requires Loaded(moved, pages, to) && done == set k | 0 <= k < |moved| :: moved[k].id
    ensures Part(to, done) == to
  {
    forall i | i in to
      ensures i in done
    {
      var k :| 0 <= k < |moved| && moved[k].id == i;
    }
  }

  lemma InvalidSave(db: Tables, now: Time, input: SaveInput)
    requires input.details.interval < 0
    ensures SaveResult(db, now, input) == Failed(Invalid)
  {
  }

  /** Destinations of a valid move are free once none is taken. */
  lemma DestinationsFree(pages: Pages, aliases: Aliases, source: string, target: Slug, children: bool)
    requires Movable(source, target, children)
    requires !SomeTaken(pages, aliases, Destinations(pages, source, target, children))
    ensures Free(pages, aliases, Destinations(pages, source, target, children))
  {
    hide Taken, Movable, IsSelected;
    var to := Destinations(pages, source, target, children);
    forall i | i in to
      ensures !Taken(pages, aliases, i, to[i]) && to[i] != pages[i].slug
    {
      DestinationMoves(pages[i], source, target, children);
    }
  }

  lemma NoneSelected(moved: seq<MovedPage>, pages: Pages, to: map<Id, Slug>)
    requires Loaded(moved, pages, to)
    ensures moved == [] <==> to == map[]
  {
    if moved != [] {
      assert Loads(moved[0], pages, to);
    } else {
      assert forall i :: i !in to;
    }
  }

  /** The pages left to revise after collecting the edits. */
  lemma EditsAreRows(pages: Pages, m: map<string, string>, now: Time, edits: map<Id, string>)
    requires forall i :: i in edits <==> i in pages && IsEdited(pages[i], m)
    requires forall i :: i in edits ==> edits[i] == Substitute(pages[i].markdown, m)
    ensures edits.Keys == EditedPages(pages, m, now).Keys
    ensures forall i :: i in edits ==> EditedPages(pages, m, now)[i] == pages[i].(markdown := edits[i], updatedAt := now)
  {
    hide Substitute, IsEdited;
    assert forall i :: i in edits.Keys <==> i in EditedPages(pages, m, now).Keys;
  }

  lemma NothingRevised(db: Tables, rows: Pages)
    ensures Revised(db, RowsPart(rows, rows.Keys)) == db
  {
    hide Append;
    assert RowsPart(rows, rows.Keys) == map[];
    assert Revised(db, map[]).history == db.history && Revised(db, map[]).pages == db.pages;
  }

  lemma ImportNext(db: Tables, now: Time, inputs: seq<SaveInput>, n: nat)
    requires n < |inputs|
    ensures ImportResult(db, now, inputs[n..]) ==
      match SaveResult(db, now, inputs[n])
      case Failed(e) => Failed(e)
      case Done(next) => ImportResult(next, now, inputs[n + 1..])
  {
    hide SaveResult;
    assert inputs[n..][1..] == inputs[n + 1..];
  }

  lemma SaveInv(db: Tables, now: Time, input: SaveInput, db': Tables)
    requires Inv(db) && SaveResult(db, now, input) == Done(db')
    ensures Inv(db')
  {
    hide Inv, SaveResult, Kept;
    SaveKeeps(db, now, input);
  }

  function InsertByLength(slug: string, ordered: seq<string>): (r: seq<string>)
    ensures multiset(r) == multiset(ordered) + multiset{slug}
  {
    if ordered == [] || |slug| >= |ordered[0]| then
      assert [slug] + ordered == [slug] + ordered;
      [slug] + ordered
    else
      assert ordered == [ordered[0]] + ordered[1..];
      [ordered[0]] + InsertByLength(slug, ordered[1..])
  }

  function SortByLength(slugs: seq<string>): (r: seq<string>)
    ensures multiset(r) == multiset(slugs)
  {
    if slugs == [] then [] else
      assert slugs == [slugs[0]] + slugs[1..];
      InsertByLength(slugs[0], SortByLength(slugs[1..]))
  }

  ghost predicate ByLength(s: seq<string>) {
    forall i, j :: 0 <= i < j < |s| ==> |s[i]| >= |s[j]|
  }

  lemma {:induction false} InsertKeepsOrder(slug: string, ordered: seq<string>)
    requires ByLength(ordered)
    ensures ByLength(InsertByLength(slug, ordered))
  {
    if ordered != [] && |slug| < |ordered[0]| {
      var rest := InsertByLength(slug, ordered[1..]);
      InsertKeepsOrder(slug, ordered[1..]);
      forall k | 0 <= k < |rest|
        ensures |rest[k]| <= |ordered[0]|
      {
        InsertedMember(slug, ordered[1..], rest[k]);
      }
    }
  }

  lemma InsertedMember(slug: string, ordered: seq<string>, x: string)
    requires x in InsertByLength(slug, ordered)
    ensures x == slug || x in ordered
  {
    assert x in multiset(InsertByLength(slug, ordered));
    assert x in multiset(ordered) + multiset{slug};
  }

  lemma {:induction false} SortIsOrdered(slugs: seq<string>)
    ensures LongestFirst(slugs, SortByLength(slugs)) && ByLength(SortByLength(slugs))
  {
    if slugs != [] {
      SortIsOrdered(slugs[1..]);
      InsertKeepsOrder(slugs[0], SortByLength(slugs[1..]));
    }
  }

  lemma BulkMoveInv(db: Tables, now: Time, slug: string, target: Path, db': Tables)
    requires Inv(db) && BulkMoveOne(db, now, slug, target) == Done(db')
    ensures Inv(db')
  {
    hide Inv, BulkMoveOne, MoveResult;
    var source, destination := BulkStep(db, now, slug, target);
  }

  lemma BulkMoveNext(db: Tables, now: Time, slugs: seq<string>, n: nat, target: Path)
    requires n < |slugs|
    ensures BulkMoveFrom(db, now, slugs[n..], target) ==
      match BulkMoveOne(db, now, slugs[n], target)
      case Failed(e) => Failed(e)
      case Done(next) => BulkMoveFrom(next, now, slugs[n + 1..], target)
  {
    hide BulkMoveOne;
    assert slugs[n..][1..] == slugs[n + 1..];
  }
}
