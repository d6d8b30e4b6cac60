/** Concrete runs that end where a reader might not expect it. */
module PageExamples {
  import opened Options
  import opened TextScan
  import opened WikiLinks
  import opened SqlLike
  import opened ReviewEdits
  import opened PageTables
  import opened PageCommands
  import opened PageInvariant
  import opened PageRuns
  import opened PageLaws
  import opened PageArtifacts

  // ---- pages that link to a second one

  function NewInput(slug: Slug, markdown: string, render: string, links: seq<string>): SaveInput {
    SaveInput("", slug, Details("", "", "", {}, {}, 0, 0, "", map[]), Draft, false, markdown, render, links)
  }

  lemma SaveIsInsert(db: Tables, now: Time, input: SaveInput)
    requires input.details.interval >= 0 && PageAt(db.pages, LookupSlug(input)).None?
    ensures Attempt(db, now, Save(input)) == InsertPage(db, input, now)
  {
    hide PageAt, LookupSlug, InsertPage;
  }

  lemma InsertedTables(db: Tables, now: Time, input: SaveInput)
    requires input.slug !in db.aliases && PageAt(db.pages, input.slug).None? && forall l :: l in db.links ==> l.source != db.nextId
    ensures InsertPage(db, input, now) == Done(Created(db, NewPage(input, now)).(links := db.links + set t | t in Elements(input.links) :: LinkRow(db.nextId, t)))
  {
    hide PageAt;
    assert (set l | l in db.links && l.source != db.nextId) == db.links;
  }

  /** A save that creates a page. */
  lemma CreatesPage(db: Tables, now: Time, input: SaveInput)
    requires input == NewInput(input.slug, input.markdown, input.render, input.links)
    requires db.aliases == map[] && (forall l :: l in db.links ==> l.source != db.nextId) && forall i :: i in db.pages ==> db.pages[i].slug != input.slug
    ensures var after := After(db, now, Save(input));
      && after.pages == db.pages[db.nextId := NewPage(input, now)] && after.nextId == db.nextId + 1 && after.aliases == map[]
      && after.links == db.links + (set t | t in Elements(input.links) :: LinkRow(db.nextId, t)) && after.issued == db.issued + {now}
  {
    hide Attempt, PageAt, InsertPage, Elements;
    assert LookupSlug(input) == input.slug;
    NobodyAt(db.pages, input.slug);
    SaveIsInsert(db, now, input);
    InsertedTables(db, now, input);
  }

  lemma PathsOfB()
    ensures SourcePath("b") == "b" && Movable("b", "c", false) && Destination("b", "b", "c") == "c"
  {
    assert TrimSpace("b") == "b";
  }

  lemma RewritesToC(m: map<string, string>)
    requires "b" in m && m["b"] == "c"
    ensures Substitute("[[b]]", m) == "[[c]]"
  {
    var s, f := "[[b]]", Renamed(m);
    assert Pattern("b", Close) == s;
    PatternIs(s, "b", Close);
    LinkRenamed(s, f);
    assert s[|Pattern("b", Close)|..] == "";
    assert Pattern("c", Close) == "[[c]]";
  }

  lemma MoveIs(db: Tables, now: Time, source: string, target: Slug, to: map<Id, Slug>)
    requires SourcePath(source) == source && Movable(source, target, false) && Destinations(db.pages, source, target, false) == to && to != map[]
    requires !SomeTaken(db.pages, db.aliases, to) && Injective(to) && !LinkClash(db.links, PathMap(db.pages, to))
    ensures Attempt(db, now, Move(source, target, false, true)) == Done(MoveAll(db, to, true, now))
  {
    hide SourcePath, Movable, Destinations, SomeTaken, Injective, LinkClash, PathMap, MoveAll;
  }

  lemma OnlyB(pages: Pages)
    requires pages.Keys == {1, 2} && pages[1].slug == "a" && pages[2].slug == "b" && !pages[2].binned
    ensures Destinations(pages, "b", "c", false) == map[2 := Destination("b", "b", "c")]
  {
    hide Destination;
    var found := Destinations(pages, "b", "c", false);
    assert forall id :: id in pages <==> id == 1 || id == 2;
  }

  /** Moving `b` to `c` when page 1 links to it from its text and nothing else is there. */
  lemma MovesToC(db: Tables, now: Time)
    requires PathsOk(db.pages, db.aliases) && db.aliases == map[] && db.links == {} && db.pages.Keys == {1, 2}
    requires db.pages[1].slug == "a" && db.pages[2].slug == "b" && !db.pages[1].binned && !db.pages[2].binned && db.pages[1].markdown == "[[b]]"
    ensures var after := After(db, now, Move("b", "c", false, true));
      1 in after.pages && after.pages[1].markdown == "[[c]]" && after.pages[1].render == db.pages[1].render
  {
    hide PathsOk, Attempt, MoveAll, PathMap, SourcePath, Movable, Destination, Destinations, Substitute, PageAt;
    PathsOfB();
    OnlyB(db.pages);
    var to: map<Id, Slug> := map[2 := "c"];
    assert CanMove(db.pages, db.aliases, to) && !SomeTaken(db.pages, db.aliases, to);
    MoveIs(db, now, "b", "c", to);
    AtPath(db.pages, db.aliases, 2);
    PathMapAt(db.pages, db.aliases, to, "b");
    RewritesToC(PathMap(db.pages, to));
    MoveAllPages(db, to, true, now);
    MoveAllRenders(db, to, true, now);
  }

  /** Two saves: page 1 at `a` with the given text and recorded links, page 2 at `b` without any. */
  lemma TwoPages(markdown: string, render: string, other: string, links: seq<string>) returns (one: Step, two: Step, db: Tables)
    ensures one == Step(1, Save(NewInput("a", markdown, render, links))) && two == Step(2, Save(NewInput("b", "", other, [])))
    ensures db == After(After(Empty(), 1, one.command), 2, two.command) && PathsOk(db.pages, db.aliases)
    ensures db.pages == map[1 := NewPage(one.command.input, 1), 2 := NewPage(two.command.input, 2)] && db.aliases == map[]
    ensures db.links == set t | t in Elements(links) :: LinkRow(1, t)
    ensures 2 !in After(Empty(), 1, one.command).issued && 3 !in db.issued
  {
    hide Inv, TokensOk, After, Kept, Stamped, Elements, NewPage;
    one, two := Step(1, Save(NewInput("a", markdown, render, links))), Step(2, Save(NewInput("b", "", other, [])));
    EmptyIsOk();
    CreatesPage(Empty(), 1, one.command.input);
    var a := After(Empty(), 1, one.command);
    AfterIsLater(Empty(), 1, one.command);
    LaterInv(Empty(), a);
    NewPageSlug(one.command.input, 1);
    CreatesPage(a, 2, two.command.input);
    db := After(a, 2, two.command);
    AfterIsLater(a, 2, two.command);
    LaterInv(a, db);
    InvPaths(db);
    assert Elements<string>([]) == {} by { NoElements(); }
    assert db.links == a.links;
  }

  lemma NoElements()
    ensures Elements<string>([]) == {}
  {
  }

  lemma NewPageSlug(input: SaveInput, now: Time)
    ensures NewPage(input, now).slug == input.slug
  {
  }

  /** Creating a page that links to a second one and moving that: the first page's artifact shows the old link. */
  lemma StaleArtifact(renderer: Renderer)
    requires renderer("[[b]]") != renderer("[[c]]")
    ensures exists steps :: Fresh(Empty(), steps) && Honest(steps, renderer) && 1 in At(steps, |steps|).pages && !InStep(At(steps, |steps|).pages[1], renderer)
  {
    hide After, Run, Fresh, At, PathsOk;
    var one, two, db := TwoPages("[[b]]", renderer("[[b]]"), renderer(""), []);
    var three := Step(3, Move("b", "c", false, true));
    var steps := [one, two, three];
    assert Elements<string>([]) == {} by { NoElements(); }
    MovesToC(db, 3);
    RunThree(one, two, three);
    assert 1 in At(steps, |steps|).pages && !InStep(At(steps, |steps|).pages[1], renderer);
  }

  /** A page whose recorded links name both ends of a move. */
  lemma ClashesAtC(db: Tables, now: Time, updateLinks: bool)
    requires PathsOk(db.pages, db.aliases) && db.aliases == map[] && db.pages.Keys == {1, 2}
    requires db.pages[1].slug == "a" && db.pages[2].slug == "b" && !db.pages[2].binned
    requires LinkRow(1, "b") in db.links && LinkRow(1, "c") in db.links
    ensures Attempt(db, now, Move("b", "c", false, updateLinks)) == Failed(Constraint)
  {
    hide PathsOk, PathMap, SourcePath, Movable, Destination, Destinations, PageAt, MoveAll;
    PathsOfB();
    OnlyB(db.pages);
    var to: map<Id, Slug> := map[2 := "c"];
    assert CanMove(db.pages, db.aliases, to) && !SomeTaken(db.pages, db.aliases, to);
    AtPath(db.pages, db.aliases, 2);
    PathMapAt(db.pages, db.aliases, to, "b");
    var l := LinkRow(1, "b");
    assert l.target in PathMap(db.pages, to) && LinkRow(l.source, PathMap(db.pages, to)[l.target]) in db.links;
    assert LinkClash(db.links, PathMap(db.pages, to));
  }

  /**
   A page that links to `b` and to the missing page `c` makes it impossible to move `b` to `c`, although
   no page has or had that path.
   */
  lemma MoveClash(updateLinks: bool)
    ensures exists steps :: var db := At(steps, |steps|);
      && Fresh(Empty(), steps) && LiveAt(db.pages, "b").Some? && (forall i :: !Owns(db.pages, db.aliases, i, "c"))
      && Attempt(db, 3, Move("b", "c", false, updateLinks)) == Failed(Constraint)
  {
    hide After, Run, Fresh, At, PathsOk, Attempt, PageAt, NewPage;
    var one, two, db := TwoPages("", "", "", ["b", "c"]);
    NewPageSlug(one.command.input, 1);
    NewPageSlug(two.command.input, 2);
    NewPageLive(two.command.input, 2);
    assert LinkRow(1, "b") in db.links && LinkRow(1, "c") in db.links by { assert "b" in ["b", "c"] && "c" in ["b", "c"]; }
    ClashesAtC(db, 3, updateLinks);
    AtPath(db.pages, db.aliases, 2);
    RunTwo(one, two);
    assert At([one, two], 2) == db;
    assert forall i :: !Owns(db.pages, db.aliases, i, "c");
  }

  lemma NewPageLive(input: SaveInput, now: Time)
    ensures !NewPage(input, now).binned
  {
  }

  lemma RunTwo(one: Step, two: Step)
    ensures var a := After(Empty(), one.now, one.command);
      && At([one, two], 2) == After(a, two.now, two.command)
      && (Fresh(Empty(), [one, two]) <==> one.now !in Empty().issued && two.now !in a.issued)
  {
    hide After, Run, Fresh;
    var steps := [one] + [two];
    assert steps == [one, two] && steps[..2] == steps;
    RunOn(Empty(), [one], [two]);
    RunOne(Empty(), one);
    RunOne(After(Empty(), one.now, one.command), two);
  }

  lemma InvPaths(db: Tables)
    requires Inv(db)
    ensures PathsOk(db.pages, db.aliases)
  {
  }

  lemma RunThree(one: Step, two: Step, three: Step)
    ensures var a := After(Empty(), one.now, one.command);
      var b := After(a, two.now, two.command);
      && At([one, two, three], 3) == After(b, three.now, three.command)
      && (Fresh(Empty(), [one, two, three]) <==> one.now !in Empty().issued && two.now !in a.issued && three.now !in b.issued)
  {
    hide After, Run, Fresh;
    var steps := [one] + [two] + [three];
    assert steps == [one, two, three] && steps[..3] == steps;
    var a := After(Empty(), one.now, one.command);
    RunOn(Empty(), [one] + [two], [three]);
    RunOn(Empty(), [one], [two]);
    RunOne(Empty(), one);
    RunOne(a, two);
    RunOne(After(a, two.now, two.command), three);
  }
}
