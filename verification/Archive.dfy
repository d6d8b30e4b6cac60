/**
 Reading a portable archive: every listed file is read once and within one byte budget, and a
 comparison of two counts at the end shows that nothing else is in the ZIP.
 */
module Archive {
  import opened Options
  import opened TextScan

  const ManifestPath := "manifest.json"

  /** A ZIP entry; `content` is absent when it cannot be opened or read. */
  datatype Entry = Entry(name: string, directory: bool, declared: nat, content: Option<string>)

  type Entries = map<string, Entry>

  datatype PageEntry = PageEntry(slug: string, markdown: string, metadata: string)

  datatype ResourceEntry = ResourceEntry(path: string, filename: string)

  datatype Manifest = Manifest(pages: seq<PageEntry>, media: seq<ResourceEntry>, attachments: seq<ResourceEntry>)

  /**
   The checks that other packages supply: clean relative ZIP paths, canonical page paths, the decoded
   and validated manifest, valid metadata for a page, and the last element of a path.
   */
  datatype Checks = Checks(path: string -> bool, slug: string -> bool, manifest: string -> Option<Manifest>,
                           metadata: (string, string) -> bool, base: string -> string)

  datatype Outcome<+T> = Read(value: T) | Refused

  datatype Page = Page(entry: PageEntry, markdown: string)

  datatype Contents = Contents(manifest: Manifest, pages: seq<Page>, resources: map<string, string>)

  // ---- what a manifest lists

  function PagePath(slug: string): string { "pages/" + slug + ".md" }

  function MetadataPath(slug: string): string { "metadata/" + slug + ".json" }

  function PagePaths(pages: seq<PageEntry>): seq<string> {
    if pages == [] then [] else PagePaths(pages[..|pages| - 1]) + [pages[|pages| - 1].markdown, pages[|pages| - 1].metadata]
  }

  function ResourcePaths(resources: seq<ResourceEntry>): (r: seq<string>)
    ensures |r| == |resources| && forall k :: 0 <= k < |r| ==> r[k] == resources[k].path
  {
    seq(|resources|, k requires 0 <= k < |resources| => resources[k].path)
  }

  /** The manifest and every path it lists, in the order they are read. */
  function Listed(m: Manifest): seq<string> {
    [ManifestPath] + PagePaths(m.pages) + ResourcePaths(m.media) + ResourcePaths(m.attachments)
  }

  function Size(entries: Entries, name: string): nat {
    if name in entries && entries[name].content.Some? then |entries[name].content.value| else 0
  }

  function Bytes(entries: Entries, names: seq<string>): nat {
    if names == [] then 0 else Bytes(entries, names[..|names| - 1]) + Size(entries, names[|names| - 1])
  }

  ghost predicate Distinct(names: seq<string>) {
    forall i, j :: 0 <= i < j < |names| ==> names[i] != names[j]
  }

  // ---- what can be read

  /** A name that is not read yet, can be read, and fits what the names before it leave of the limit. */
  ghost predicate Readable(entries: Entries, limit: int, before: seq<string>, name: string) {
    && name !in before && name in entries && entries[name].content.Some?
    && entries[name].declared <= limit - Bytes(entries, before) && Size(entries, name) <= limit - Bytes(entries, before)
  }

  /** Each name can be read after those in front of it. */
  ghost predicate Ready(entries: Entries, limit: int, names: seq<string>) {
    forall k :: 0 <= k < |names| ==> Readable(entries, limit, names[..k], names[k])
  }

  lemma ReadyMore(entries: Entries, limit: int, names: seq<string>, name: string)
    requires Ready(entries, limit, names) && Readable(entries, limit, names, name)
    ensures Ready(entries, limit, names + [name])
  {
    hide Readable;
    var more := names + [name];
    forall k | 0 <= k < |more|
      ensures Readable(entries, limit, more[..k], more[k])
    {
      assert more[..k] == names[..k];
      assert names[..|names|] == names;
    }
  }

  /** One name that cannot be read in its turn is reason to refuse the whole list. */
  lemma NotReady(entries: Entries, limit: int, before: seq<string>, name: string, all: seq<string>)
    requires before + [name] <= all && !Readable(entries, limit, before, name)
    ensures !Ready(entries, limit, all)
  {
    hide Readable;
    var k := |before|;
    assert all[k] == (before + [name])[k] == name;
    assert all[..k] == (before + [name])[..k] == before;
  }

  // ---- indexing the ZIP

  function FileNames(files: seq<Entry>): seq<string> {
    if files == [] then [] else
    FileNames(files[..|files| - 1]) + if files[|files| - 1].directory then [] else [files[|files| - 1].name]
  }

  /** The files of a ZIP by name. */
  function EntriesOf(files: seq<Entry>): Entries {
    if files == [] then map[] else
    var last, before := files[|files| - 1], EntriesOf(files[..|files| - 1]);
    if last.directory then before else before[last.name := last]
  }

  method IndexEntries(files: seq<Entry>, checks: Checks) returns (r: Outcome<Entries>)
    ensures r.Read? <==> Distinct(FileNames(files)) && forall n :: n in FileNames(files) ==> checks.path(n)
    ensures r.Read? ==> r.value == EntriesOf(files) && r.value.Keys == set n | n in FileNames(files)
  {
    var entries: Entries := map[];
    var n := 0;
    while n < |files|
      invariant 0 <= n <= |files| && Distinct(FileNames(files[..n])) && entries.Keys == set x | x in FileNames(files[..n])
      invariant entries == EntriesOf(files[..n]) && forall x :: x in FileNames(files[..n]) ==> checks.path(x)
    {
      var entry := files[n];
      assert files[..n + 1][..n] == files[..n];
      if !entry.directory {
        if !checks.path(entry.name) || entry.name in entries {
          NamesPrefix(files, n);
          Offends(FileNames(files[..n]), entry.name, FileNames(files), checks);
          return Refused;
        }
        NamesMore(FileNames(files[..n]), entry.name);
        entries := entries[entry.name := entry];
      }
      n := n + 1;
    }
    assert files[..n] == files;
    r := Read(entries);
  }

  /** The names found so far, and the next one, are names of the ZIP. */
  lemma {:induction false} NamesPrefix(files: seq<Entry>, n: nat)
    requires n < |files| && !files[n].directory
    ensures FileNames(files[..n]) + [files[n].name] <= FileNames(files)
    decreases |files|
  {
    var last := |files| - 1;
    if n == last {
      assert files[..n + 1] == files;
    } else {
      assert files[..last][..n] == files[..n];
      NamesPrefix(files[..last], n);
    }
  }

  /** A name that is not clean, or was found before, is reason to refuse the ZIP. */
  lemma Offends(names: seq<string>, name: string, all: seq<string>, checks: Checks)
    requires names + [name] <= all && (!checks.path(name) || name in names)
    ensures !(Distinct(all) && forall n :: n in all ==> checks.path(n))
  {
    var k := |names|;
    assert (names + [name])[k] == name && all[k] == name;
    if name in names {
      var i :| 0 <= i < k && names[i] == name;
      assert (names + [name])[i] == all[i];
    }
  }

  lemma NamesMore(names: seq<string>, name: string)
    requires Distinct(names) && name !in names
    ensures Distinct(names + [name]) && (set x | x in names + [name]) == (set x | x in names) + {name}
  {
  }

  // ---- reading

  class Reader {
    const entries: Entries
    const limit: nat
    const checks: Checks
    var used: set<string>
    var remaining: int
    var resources: map<string, string>
    ghost var order: seq<string>

    /** What has been read, in order, and what it left of the budget. */
    ghost predicate Valid()
      reads this
    {
      && used == (set n | n in order) && Distinct(order) && used <= entries.Keys
      && 0 <= remaining && remaining + Bytes(entries, order) == limit && Ready(entries, limit, order)
    }

    constructor (entries: Entries, limit: nat, checks: Checks)
      ensures Valid() && this.entries == entries && this.limit == limit && this.checks == checks && order == [] && resources == map[]
    {
      this.entries, this.limit, this.checks := entries, limit, checks;
      used, remaining, resources, order := {}, limit, map[], [];
    }

    /** Reads one entry without exceeding the shared budget. */
    method ReadZipFile(name: string) returns (r: Outcome<string>)
      requires Valid() && name in entries && name !in used
      modifies this
      ensures resources == old(resources) && (r.Read? <==> Readable(entries, limit, old(order), name))
      ensures r.Read? ==> Valid() && order == old(order) + [name] && entries[name].content == Some(r.value)
      ensures r.Refused? ==> used == old(used) && order == old(order) && remaining == old(remaining)
    {
      var entry := entries[name];
      if entry.declared > remaining || entry.content.None? {
        return Refused;
      }
      if |entry.content.value| > remaining {
        return Refused;
      }
      BytesMore(entries, order, name);
      NamesMore(order, name);
      ReadyMore(entries, limit, order, name);
      remaining := remaining - |entry.content.value|;
      used := used + {name};
      order := order + [name];
      r := Read(entry.content.value);
    }

    /** Reads one listed path and marks it consumed. */
    method ReadManifestFile(name: string) returns (r: Outcome<string>)
      requires Valid()
      modifies this
      ensures Valid() && resources == old(resources) && (r.Read? <==> Readable(entries, limit, old(order), name))
      ensures r.Read? ==> order == old(order) + [name] && name in entries && entries[name].content == Some(r.value)
      ensures r.Refused? ==> order == old(order)
    {
      hide Ready, Distinct, Bytes;
      if name in used || name !in entries {
        return Refused;
      }
      r := ReadZipFile(name);
    }

    method ReadPage(page: PageEntry) returns (r: Outcome<Page>)
      requires Valid()
      modifies this
      ensures Valid() && resources == old(resources)
      ensures r.Read? <==> PageOk(page, checks, entries) && Readable(entries, limit, old(order), page.markdown) && Readable(entries, limit, old(order) + [page.markdown], page.metadata)
      ensures r.Read? ==> order == old(order) + [page.markdown] + [page.metadata] && IsRead(page, r.value, entries)
    {
      hide Distinct, Bytes, TrimSpace, PagePath, MetadataPath, Ready, Readable;
      var slug := TrimSpace(page.slug);
      if !checks.slug(slug) || page.markdown != PagePath(slug) || page.metadata != MetadataPath(slug) {
        return Refused;
      }
      var markdown := ReadManifestFile(page.markdown);
      if markdown.Refused? {
        return Refused;
      }
      var metadata := ReadManifestFile(page.metadata);
      if metadata.Refused? || !checks.metadata(slug, metadata.value) {
        return Refused;
      }
      r := Read(Page(page, markdown.value));
    }

    method ReadPages(pages: seq<PageEntry>) returns (r: Outcome<seq<Page>>)
      requires Valid()
      modifies this
      ensures Valid() && resources == old(resources)
      ensures r.Read? <==> (forall k :: 0 <= k < |pages| ==> PageOk(pages[k], checks, entries)) && Ready(entries, limit, old(order) + PagePaths(pages))
      ensures r.Read? ==> order == old(order) + PagePaths(pages) && |r.value| == |pages|
      ensures r.Read? ==> forall k :: 0 <= k < |pages| ==> IsRead(pages[k], r.value[k], entries)
    {
      hide PageOk, IsRead, Distinct, Bytes, PagePaths, Ready, Readable;
      var done: seq<Page> := [];
      var n := 0;
      NoPagePaths(pages[..0]);
      while n < |pages|
        invariant 0 <= n <= |pages| && Valid() && resources == old(resources) && |done| == n
        invariant order == old(order) + PagePaths(pages[..n])
        invariant forall k :: 0 <= k < n ==> PageOk(pages[k], checks, entries) && IsRead(pages[k], done[k], entries)
      {
        PagePathsMore(pages, n);
        ghost var before := order;
        var page := ReadPage(pages[n]);
        if page.Refused? {
          PageRefused(entries, limit, old(order), pages, n, before, checks);
          return Refused;
        }
        done := done + [page.value];
        n := n + 1;
      }
      assert pages[..n] == pages;
      r := Read(done);
    }

    method ReadResource(resource: ResourceEntry, prefix: string) returns (ok: bool)
      requires Valid()
      modifies this
      ensures Valid()
      ensures ok <==> ResourceOk(resource, prefix, checks) && Readable(entries, limit, old(order), resource.path)
      ensures ok ==> order == old(order) + [resource.path] && resource.path in entries && entries[resource.path].content.Some?
      ensures !ok ==> resources == old(resources)
      ensures ok ==> resources == old(resources)[resource.path := entries[resource.path].content.value]
    {
      hide Distinct, Bytes, Ready, TrimSpace;
      if !(prefix <= resource.path) || TrimSpace(resource.filename) == "" || checks.base(resource.path) != resource.filename {
        return false;
      }
      if resource.path in used {
        return false;
      }
      var data := ReadManifestFile(resource.path);
      if data.Refused? {
        return false;
      }
      resources := resources[resource.path := data.value];
      ok := true;
    }

    method ReadResources(list: seq<ResourceEntry>, prefix: string) returns (ok: bool)
      requires Valid() && Stored(resources, entries)
      modifies this
      ensures Valid() && Stored(resources, entries)
      ensures ok <==> (forall k :: 0 <= k < |list| ==> ResourceOk(list[k], prefix, checks)) && Ready(entries, limit, old(order) + ResourcePaths(list))
      ensures ok ==> order == old(order) + ResourcePaths(list) && resources.Keys == old(resources).Keys + set p | p in ResourcePaths(list)
    {
      hide Distinct, Bytes, ResourcePaths, Ready, Readable, ResourceOk;
      var n := 0;
      NoResourcePaths(list[..0]);
      while n < |list|
        invariant 0 <= n <= |list| && Valid() && Stored(resources, entries)
        invariant order == old(order) + ResourcePaths(list[..n])
        invariant resources.Keys == old(resources).Keys + set p | p in ResourcePaths(list[..n])
        invariant forall k :: 0 <= k < n ==> ResourceOk(list[k], prefix, checks)
      {
        ResourcePathsMore(list, n);
        ghost var before := order;
        ok := ReadResource(list[n], prefix);
        if !ok {
          ResourceRefused(entries, limit, old(order), list, n, before, prefix, checks);
          return;
        }
        n := n + 1;
      }
      assert list[..n] == list;
      ok := true;
    }
  }

  /** A page entry with the canonical paths whose metadata are valid. */
  ghost predicate PageOk(page: PageEntry, checks: Checks, entries: Entries) {
    && IsPage(page, checks)
    && page.metadata in entries && entries[page.metadata].content.Some? && checks.metadata(TrimSpace(page.slug), entries[page.metadata].content.value)
  }

  /** A resource of its section that names its own path. */
  predicate ResourceOk(resource: ResourceEntry, prefix: string, checks: Checks) {
    prefix <= resource.path && TrimSpace(resource.filename) != "" && checks.base(resource.path) == resource.filename
  }

  /** One refused page is reason to refuse all. */
  lemma PageRefused(entries: Entries, limit: int, start: seq<string>, pages: seq<PageEntry>, n: nat, before: seq<string>, checks: Checks)
    requires n < |pages| && before == start + PagePaths(pages[..n])
    requires !(PageOk(pages[n], checks, entries) && Readable(entries, limit, before, pages[n].markdown) && Readable(entries, limit, before + [pages[n].markdown], pages[n].metadata))
    ensures !((forall k :: 0 <= k < |pages| ==> PageOk(pages[k], checks, entries)) && Ready(entries, limit, start + PagePaths(pages)))
  {
    hide PageOk, Readable, Ready, PagePaths;
    var all, page := start + PagePaths(pages), pages[n];
    PagePathsPrefix(pages, n + 1);
    PagePathsMore(pages, n);
    TwoMore(start, PagePaths(pages[..n]), page.markdown, page.metadata, PagePaths(pages));
    if !Readable(entries, limit, before, page.markdown) {
      NotReady(entries, limit, before, page.markdown, all);
    } else if !Readable(entries, limit, before + [page.markdown], page.metadata) {
      NotReady(entries, limit, before + [page.markdown], page.metadata, all);
    }
  }

  lemma TwoMore(start: seq<string>, some: seq<string>, x: string, y: string, all: seq<string>)
    requires some + [x, y] <= all
    ensures start + some + [x] <= start + all && start + some + [x] + [y] <= start + all
  {
    var rest := all[|some| + 2..];
    assert all == some + [x, y] + rest;
    assert start + all == start + some + [x] + [y] + rest;
  }

  lemma {:induction false} PagePathsPrefix(pages: seq<PageEntry>, n: nat)
    requires n <= |pages|
    ensures PagePaths(pages[..n]) <= PagePaths(pages)
    decreases |pages|
  {
    if n == |pages| {
      assert pages[..n] == pages;
    } else {
      assert pages[..|pages| - 1][..n] == pages[..n];
      PagePathsPrefix(pages[..|pages| - 1], n);
    }
  }

  lemma ResourceRefused(entries: Entries, limit: int, start: seq<string>, list: seq<ResourceEntry>, n: nat, before: seq<string>, prefix: string, checks: Checks)
    requires n < |list| && before == start + ResourcePaths(list[..n])
    requires !(ResourceOk(list[n], prefix, checks) && Readable(entries, limit, before, list[n].path))
    ensures !((forall k :: 0 <= k < |list| ==> ResourceOk(list[k], prefix, checks)) && Ready(entries, limit, start + ResourcePaths(list)))
  {
    hide ResourceOk, Readable, Ready;
    if !Readable(entries, limit, before, list[n].path) {
      assert before + [list[n].path] == start + ResourcePaths(list)[..n + 1];
      NotReady(entries, limit, before, list[n].path, start + ResourcePaths(list));
    }
  }

  /** A page entry whose paths are the canonical ones. */
  predicate IsPage(page: PageEntry, checks: Checks) {
    var slug := TrimSpace(page.slug);
    checks.slug(slug) && page.markdown == PagePath(slug) && page.metadata == MetadataPath(slug)
  }

  /** A page as read: its entry and the content of its Markdown file. */
  predicate IsRead(page: PageEntry, read: Page, entries: Entries) {
    read.entry == page && page.markdown in entries && entries[page.markdown].content == Some(read.markdown)
  }

  lemma NoPagePaths(pages: seq<PageEntry>)
    requires pages == []
    ensures PagePaths(pages) == []
  {
  }

  lemma NoResourcePaths(list: seq<ResourceEntry>)
    requires list == []
    ensures ResourcePaths(list) == []
  {
  }

  lemma ResourcePathsMore(list: seq<ResourceEntry>, n: nat)
    requires n < |list|
    ensures ResourcePaths(list[..n + 1]) == ResourcePaths(list[..n]) + [list[n].path]
  {
  }

  lemma PagePathsMore(pages: seq<PageEntry>, n: nat)
    requires n < |pages|
    ensures PagePaths(pages[..n + 1]) == PagePaths(pages[..n]) + [pages[n].markdown, pages[n].metadata]
  {
    assert pages[..n + 1][..n] == pages[..n];
  }

  /** Resources hold the content of their entries. */
  ghost predicate Stored(resources: map<string, string>, entries: Entries) {
    forall p :: p in resources ==> p in entries && entries[p].content == Some(resources[p])
  }

  lemma BytesMore(entries: Entries, names: seq<string>, name: string)
    ensures Bytes(entries, names + [name]) == Bytes(entries, names) + Size(entries, name)
  {
    assert (names + [name])[..|names|] == names;
  }

  // ---- the whole archive

  /** Everything a successful parse says about the ZIP. */
  ghost predicate Exact(files: seq<Entry>, limit: int, contents: Contents) {
    var entries := EntriesOf(files);
    && entries.Keys == (set n | n in FileNames(files)) && Distinct(FileNames(files))
    && Distinct(Listed(contents.manifest)) && (set n | n in Listed(contents.manifest)) == entries.Keys
    && Bytes(entries, Listed(contents.manifest)) <= limit
    && (forall i, j :: 0 <= i < j < |contents.manifest.pages| ==>
          TrimSpace(contents.manifest.pages[i].slug) != TrimSpace(contents.manifest.pages[j].slug))
    && |contents.pages| == |contents.manifest.pages|
    && (forall k :: 0 <= k < |contents.pages| ==> IsRead(contents.manifest.pages[k], contents.pages[k], entries))
    && Stored(contents.resources, entries)
    && contents.resources.Keys == (set p | p in ResourcePaths(contents.manifest.media)) + (set p | p in ResourcePaths(contents.manifest.attachments))
  }

  /**
   What an accepted ZIP is: clean distinct names, a decodable manifest that lists pages, valid entries,
   every listed name readable in its turn within the limit, and nothing else in the ZIP.
   */
  ghost predicate Accepted(files: seq<Entry>, limit: int, checks: Checks) {
    var entries := EntriesOf(files);
    && limit > 0 && Distinct(FileNames(files)) && (forall n :: n in FileNames(files) ==> checks.path(n))
    && ManifestPath in entries && entries[ManifestPath].content.Some?
    && var m := checks.manifest(entries[ManifestPath].content.value);
       m.Some? && AcceptedManifest(entries, limit, checks, m.value)
  }

  ghost predicate AcceptedManifest(entries: Entries, limit: int, checks: Checks, m: Manifest) {
    && m.pages != []
    && (forall k :: 0 <= k < |m.pages| ==> PageOk(m.pages[k], checks, entries))
    && (forall k :: 0 <= k < |m.media| ==> ResourceOk(m.media[k], "media/", checks))
    && (forall k :: 0 <= k < |m.attachments| ==> ResourceOk(m.attachments[k], "attachments/", checks))
    && Ready(entries, limit, Listed(m))
    && (set n | n in Listed(m)) == entries.Keys
  }

  /** A list is ready only if its beginning is. */
  lemma ReadyPrefix(entries: Entries, limit: int, names: seq<string>, all: seq<string>)
    requires names <= all && Ready(entries, limit, all)
    ensures Ready(entries, limit, names)
  {
    hide Readable;
    forall k | 0 <= k < |names|
      ensures Readable(entries, limit, names[..k], names[k])
    {
      assert names[..k] == all[..k] && names[k] == all[k];
    }
  }

  /** The beginnings of a manifest's list. */
  lemma ListedParts(m: Manifest)
    ensures [ManifestPath] <= [ManifestPath] + PagePaths(m.pages) <= [ManifestPath] + PagePaths(m.pages) + ResourcePaths(m.media) <= Listed(m)
  {
    hide PagePaths, ResourcePaths;
  }

  /** A subset with as many elements is the whole set. */
  lemma SameCount(used: set<string>, all: set<string>)
    requires used <= all && |used| == |all|
    ensures used == all
  {
    assert all == used + (all - used);
  }

  lemma {:induction false} PagePathAt(pages: seq<PageEntry>, k: nat)
    requires k < |pages|
    ensures |PagePaths(pages)| == 2 * |pages| && PagePaths(pages)[2 * k] == pages[k].markdown
    decreases |pages|
  {
    var last := |pages| - 1;
    if last > 0 {
      PagePathAt(pages[..last], if k < last then k else 0);
    } else {
      assert PagePaths(pages[..0]) == [];
    }
  }

  /** Different listed paths mean different pages. */
  lemma SlugsDiffer(m: Manifest, checks: Checks, i: nat, j: nat)
    requires Distinct(Listed(m)) && i < j < |m.pages| && forall k :: 0 <= k < |m.pages| ==> IsPage(m.pages[k], checks)
    ensures TrimSpace(m.pages[i].slug) != TrimSpace(m.pages[j].slug)
  {
    hide TrimSpace, PagePaths, ResourcePaths;
    PagePathAt(m.pages, i);
    PagePathAt(m.pages, j);
    var listed := Listed(m);
    assert listed[1 + 2 * i] == m.pages[i].markdown && listed[1 + 2 * j] == m.pages[j].markdown;
  }

  /** The parts of an accepted list are ready. */
  lemma AcceptedParts(entries: Entries, limit: int, checks: Checks, m: Manifest)
    ensures AcceptedManifest(entries, limit, checks, m) ==>
      Ready(entries, limit, [ManifestPath]) && Ready(entries, limit, [ManifestPath] + PagePaths(m.pages)) && Ready(entries, limit, [ManifestPath] + PagePaths(m.pages) + ResourcePaths(m.media))
  {
    hide Ready, PagePaths, ResourcePaths, PageOk, ResourceOk;
    ListedParts(m);
    if AcceptedManifest(entries, limit, checks, m) {
      ReadyPrefix(entries, limit, [ManifestPath], Listed(m));
      ReadyPrefix(entries, limit, [ManifestPath] + PagePaths(m.pages), Listed(m));
      ReadyPrefix(entries, limit, [ManifestPath] + PagePaths(m.pages) + ResourcePaths(m.media), Listed(m));
    }
  }

  lemma ManifestReadable(entries: Entries, limit: int)
    ensures Ready(entries, limit, [ManifestPath]) ==> Readable(entries, limit, [], ManifestPath)
  {
    assert [ManifestPath][..0] == [];
  }

  /** Reads what a manifest lists. */
  method ReadListed(reader: Reader, m: Manifest) returns (r: Outcome<Contents>)
    requires reader.Valid() && reader.order == [ManifestPath] && reader.resources == map[] && m.pages != []
    modifies reader
    ensures reader.Valid()
    ensures r.Read? <==> AcceptedManifest(reader.entries, reader.limit, reader.checks, m)
    ensures r.Read? ==> r.value.manifest == m && reader.order == Listed(m) && |r.value.pages| == |m.pages| && Stored(r.value.resources, reader.entries)
    ensures r.Read? ==> forall k :: 0 <= k < |m.pages| ==> IsRead(m.pages[k], r.value.pages[k], reader.entries)
    ensures r.Read? ==> r.value.resources.Keys == (set p | p in ResourcePaths(m.media)) + (set p | p in ResourcePaths(m.attachments))
  {
    hide Distinct, Bytes, PagePaths, ResourcePaths, Ready, PageOk, ResourceOk, IsRead;
    AcceptedParts(reader.entries, reader.limit, reader.checks, m);
    var pages := reader.ReadPages(m.pages);
    if pages.Refused? {
      return Refused;
    }
    var media := reader.ReadResources(m.media, "media/");
    if !media {
      return Refused;
    }
    var attachments := reader.ReadResources(m.attachments, "attachments/");
    if !attachments {
      return Refused;
    }
    if |reader.used| != |reader.entries| {
      return Refused;
    }
    SameCount(reader.used, reader.entries.Keys);
    r := Read(Contents(m, pages.value, reader.resources));
  }

  /** Validates and reads an archive completely. */
  method Parse(files: seq<Entry>, limit: int, checks: Checks) returns (r: Outcome<Contents>)
    ensures r.Read? <==> Accepted(files, limit, checks)
    ensures r.Read? ==> Exact(files, limit, r.value)
  {
    hide Distinct, Bytes, PagePaths, ResourcePaths, FileNames, EntriesOf, TrimSpace, IsPage, IsRead, Ready, Readable, AcceptedManifest;
    if limit <= 0 {
      return Refused;
    }
    var index := IndexEntries(files, checks);
    if index.Refused? || ManifestPath !in index.value {
      return Refused;
    }
    var entries := index.value;
    var reader := new Reader(entries, limit, checks);
    var data := reader.ReadZipFile(ManifestPath);
    if data.Refused? {
      ManifestRefused(entries, limit, checks);
      return Refused;
    }
    var manifest := checks.manifest(data.value);
    if manifest.None? || manifest.value.pages == [] {
      NoPagesRefused(entries, limit, checks, manifest);
      return Refused;
    }
    var m := manifest.value;
    assert reader.order == [ManifestPath];
    r := ReadListed(reader, m);
    if r.Read? {
      ReadIsExact(files, limit, checks, m, r.value);
      assert Distinct(Listed(m)) && Bytes(entries, Listed(m)) <= limit;
    }
  }

  lemma ManifestRefused(entries: Entries, limit: int, checks: Checks)
    requires !Readable(entries, limit, [], ManifestPath)
    ensures forall m :: !AcceptedManifest(entries, limit, checks, m)
  {
    hide Ready, Readable, AcceptedManifest;
    ManifestReadable(entries, limit);
    forall m
      ensures !AcceptedManifest(entries, limit, checks, m)
    {
      AcceptedParts(entries, limit, checks, m);
    }
  }

  lemma NoPagesRefused(entries: Entries, limit: int, checks: Checks, m: Option<Manifest>)
    requires m.None? || m.value.pages == []
    ensures m.Some? ==> !AcceptedManifest(entries, limit, checks, m.value)
  {
  }

  /** What was read is all there is, and the pages' paths differ. */
  lemma ReadIsExact(files: seq<Entry>, limit: int, checks: Checks, m: Manifest, contents: Contents)
    requires Accepted(files, limit, checks) && Distinct(Listed(m)) && Bytes(EntriesOf(files), Listed(m)) <= limit
    requires AcceptedManifest(EntriesOf(files), limit, checks, m) && EntriesOf(files).Keys == set n | n in FileNames(files)
    requires contents.manifest == m && |contents.pages| == |m.pages| && Stored(contents.resources, EntriesOf(files))
    requires forall k :: 0 <= k < |m.pages| ==> IsRead(m.pages[k], contents.pages[k], EntriesOf(files))
    requires contents.resources.Keys == (set p | p in ResourcePaths(m.media)) + (set p | p in ResourcePaths(m.attachments))
    ensures Exact(files, limit, contents)
  {
    hide Distinct, Bytes, PagePaths, ResourcePaths, FileNames, EntriesOf, TrimSpace, IsRead, Ready, Readable, Stored;
    forall i, j | 0 <= i < j < |m.pages|
      ensures TrimSpace(m.pages[i].slug) != TrimSpace(m.pages[j].slug)
    {
      assert forall k :: 0 <= k < |m.pages| ==> PageOk(m.pages[k], checks, EntriesOf(files));
      SlugsDiffer(m, checks, i, j);
    }
  }

  // ---- what that means for the files

  /** A file of the ZIP; directories do not count. */
  ghost predicate IsFile(files: seq<Entry>, k: int, name: string) {
    0 <= k < |files| && !files[k].directory && files[k].name == name
  }

  ghost predicate HasFile(files: seq<Entry>, name: string, content: string) {
    exists k :: IsFile(files, k, name) && files[k].content == Some(content)
  }

  lemma {:induction false} NamesAre(files: seq<Entry>, name: string)
    ensures name in FileNames(files) <==> exists k :: IsFile(files, k, name)
  {
    if files != [] {
      var before, last := files[..|files| - 1], files[|files| - 1];
      NamesAre(before, name);
      if k :| IsFile(before, k, name) {
        assert IsFile(files, k, name);
      }
      if k :| IsFile(files, k, name) {
        if k < |before| {
          assert IsFile(before, k, name);
        }
      }
      if !last.directory && last.name == name {
        assert IsFile(files, |before|, name);
      }
    }
  }

  /** No two files have one name. */
  lemma {:induction false} DistinctAre(files: seq<Entry>)
    ensures Distinct(FileNames(files)) <==> forall j, k, name :: j < k && IsFile(files, j, name) ==> !IsFile(files, k, name)
  {
    hide FileNames;
    if files == [] {
      assert FileNames(files) == [] by { NoNames(); }
    } else {
      var before, last := files[..|files| - 1], files[|files| - 1];
      DistinctAre(before);
      NamesAre(before, last.name);
      DistinctMore(files);
      FilesBefore(files);
      if Distinct(FileNames(files)) {
        assert last.directory || forall j :: !IsFile(before, j, last.name);
        forall j, k, name | j < k && IsFile(files, j, name)
          ensures !IsFile(files, k, name)
        {
          assert k <= |before| ==> IsFile(before, j, name);
          assert k < |before| ==> (IsFile(files, k, name) <==> IsFile(before, k, name));
        }
      }
      if forall j, k, name :: j < k && IsFile(files, j, name) ==> !IsFile(files, k, name) {
        forall j, k, name | j < k && IsFile(before, j, name)
          ensures !IsFile(before, k, name)
        {
          assert IsFile(files, j, name) && !IsFile(files, k, name);
        }
        if !last.directory {
          assert IsFile(files, |before|, last.name);
          forall k
            ensures !IsFile(before, k, last.name)
          {
            assert IsFile(before, k, last.name) <==> k < |before| && IsFile(files, k, last.name);
          }
        }
      }
    }
  }

  lemma NoNames()
    ensures FileNames([]) == []
  {
  }

  lemma FilesBefore(files: seq<Entry>)
    requires files != []
    ensures forall k, name :: IsFile(files[..|files| - 1], k, name) <==> k < |files| - 1 && IsFile(files, k, name)
  {
    var before := files[..|files| - 1];
    forall k, name
      ensures IsFile(before, k, name) <==> k < |before| && IsFile(files, k, name)
    {
      if 0 <= k < |before| {
        assert before[k] == files[k];
      }
    }
  }

  lemma DistinctMore(files: seq<Entry>)
    requires files != []
    ensures var before, last := files[..|files| - 1], files[|files| - 1];
      Distinct(FileNames(files)) <==> Distinct(FileNames(before)) && (last.directory || last.name !in FileNames(before))
  {
    var names := FileNames(files[..|files| - 1]);
    var last := files[|files| - 1];
    if last.directory {
      assert names + [] == names;
    } else {
      DistinctOne(names, last.name);
    }
  }

  lemma DistinctOne(names: seq<string>, name: string)
    ensures Distinct(names + [name]) <==> Distinct(names) && name !in names
  {
    var all := names + [name];
    assert forall k :: 0 <= k < |names| ==> all[k] == names[k];
    assert all[|names|] == name;
    if Distinct(all) {
      forall k | 0 <= k < |names|
        ensures names[k] != name
      {
        assert all[k] != all[|names|];
      }
    }
  }

  /** With distinct names, each name stands for the file of that name. */
  lemma {:induction false} EntriesAre(files: seq<Entry>, k: int, name: string)
    requires Distinct(FileNames(files))
    ensures IsFile(files, k, name) ==> name in EntriesOf(files) && EntriesOf(files)[name] == files[k]
    ensures name in EntriesOf(files) ==> exists j :: IsFile(files, j, name) && EntriesOf(files)[name] == files[j]
    decreases |files|
  {
    hide Distinct, FileNames;
    if files != [] {
      var before, last := files[..|files| - 1], files[|files| - 1];
      DistinctMore(files);
      EntriesAre(before, k, name);
      NamesAre(before, last.name);
      if IsFile(files, k, name) {
        if k < |before| {
          assert IsFile(before, k, name);
        }
      }
      if name in EntriesOf(files) {
        if !last.directory && last.name == name {
          assert IsFile(files, |before|, name);
        } else {
          var j :| IsFile(before, j, name) && EntriesOf(before)[name] == before[j];
          assert IsFile(files, j, name);
        }
      }
    }
  }

  /** What a successful parse returns is what the files hold, and there is no other file. */
  lemma ParsedFiles(files: seq<Entry>, limit: int, checks: Checks, contents: Contents)
    requires Accepted(files, limit, checks) && Exact(files, limit, contents)
    requires checks.manifest(EntriesOf(files)[ManifestPath].content.value) == Some(contents.manifest)
    ensures exists text :: HasFile(files, "manifest.json", text) && checks.manifest(text) == Some(contents.manifest)
    ensures forall k :: 0 <= k < |contents.pages| ==>
      && contents.pages[k].entry == contents.manifest.pages[k]
      && HasFile(files, "pages/" + TrimSpace(contents.manifest.pages[k].slug) + ".md", contents.pages[k].markdown)
    ensures forall p :: p in contents.resources ==> HasFile(files, p, contents.resources[p])
    ensures forall k, name :: IsFile(files, k, name) ==> name in Listed(contents.manifest)
  {
    hide Distinct, FileNames, EntriesOf, TrimSpace, Bytes, Ready, ResourceOk, PagePaths, ResourcePaths, Listed;
    var entries, m := EntriesOf(files), contents.manifest;
    forall name | name in entries && entries[name].content.Some?
      ensures HasFile(files, name, entries[name].content.value)
    {
      EntriesAre(files, 0, name);
    }
    forall k, name | IsFile(files, k, name)
      ensures name in Listed(m)
    {
      EntriesAre(files, k, name);
    }
    forall k | 0 <= k < |contents.pages|
      ensures HasFile(files, "pages/" + TrimSpace(m.pages[k].slug) + ".md", contents.pages[k].markdown)
    {
      assert PageOk(m.pages[k], checks, entries) && IsRead(m.pages[k], contents.pages[k], entries);
    }
  }

  /** What a manifest lists: itself, two files for each page, one for each resource. */
  lemma ListedIs(m: Manifest, name: string)
    ensures name in Listed(m) <==>
      || name == "manifest.json"
      || (exists k :: 0 <= k < |m.pages| && (name == m.pages[k].markdown || name == m.pages[k].metadata))
      || (exists k :: 0 <= k < |m.media| && name == m.media[k].path)
      || (exists k :: 0 <= k < |m.attachments| && name == m.attachments[k].path)
  {
    hide PagePaths, ResourcePaths;
    PagePathsIn(m.pages, name);
    ResourcePathsIn(m.media, name);
    ResourcePathsIn(m.attachments, name);
  }

  lemma {:induction false} PagePathsIn(pages: seq<PageEntry>, name: string)
    ensures name in PagePaths(pages) <==> exists k :: 0 <= k < |pages| && (name == pages[k].markdown || name == pages[k].metadata)
  {
    if pages != [] {
      PagePathsIn(pages[..|pages| - 1], name);
    }
  }

  lemma ResourcePathsIn(resources: seq<ResourceEntry>, name: string)
    ensures name in ResourcePaths(resources) <==> exists k :: 0 <= k < |resources| && name == resources[k].path
  {
    if k :| 0 <= k < |resources| && name == resources[k].path {
      assert ResourcePaths(resources)[k] == name;
    }
  }

  // ---- the budget

  lemma {:induction false} BytesConcat(entries: Entries, a: seq<string>, b: seq<string>)
    ensures Bytes(entries, a + b) == Bytes(entries, a) + Bytes(entries, b)
    ensures forall name :: Bytes(entries, [name]) == Size(entries, name)
    decreases |b|
  {
    BytesOne(entries);
    if b == [] {
      assert a + b == a;
    } else {
      var last := |b| - 1;
      assert (a + b)[..|a + b| - 1] == a + b[..last];
      BytesConcat(entries, a, b[..last]);
    }
  }

  lemma BytesOne(entries: Entries)
    ensures forall name :: Bytes(entries, [name]) == Size(entries, name)
  {
    forall name
      ensures Bytes(entries, [name]) == Size(entries, name)
    {
      BytesMore(entries, [], name);
      assert [] + [name] == [name];
    }
  }

  /** A file whose declared size is its real one. */
  predicate Honest(e: Entry) {
    e.content.Some? && e.declared == |e.content.value|
  }

  lemma HonestAt(entries: Entries, limit: int, names: seq<string>, k: nat)
    requires k < |names| && Distinct(names) && names[k] in entries && Honest(entries[names[k]])
    ensures Readable(entries, limit, names[..k], names[k]) <==> Bytes(entries, names[..k]) + Size(entries, names[k]) <= limit
    ensures Bytes(entries, names[..k]) + Size(entries, names[k]) <= Bytes(entries, names)
    ensures k == |names| - 1 ==> Bytes(entries, names[..k]) + Size(entries, names[k]) == Bytes(entries, names)
  {
    hide Bytes, Distinct;
    NotBefore(names, k);
    BytesMore(entries, names[..k], names[k]);
    assert names[..k] + [names[k]] == names[..k + 1];
    BytesConcat(entries, names[..k + 1], names[k + 1..]);
    assert names == names[..k + 1] + names[k + 1..];
    assert k == |names| - 1 ==> names[..k + 1] == names;
  }

  /** Honest files that differ can be read in turn exactly if their sizes add up to no more than the limit. */
  lemma HonestFit(entries: Entries, limit: int, names: seq<string>)
    requires names != [] && Distinct(names) && forall k :: 0 <= k < |names| ==> names[k] in entries && Honest(entries[names[k]])
    ensures Ready(entries, limit, names) <==> Bytes(entries, names) <= limit
  {
    hide Bytes, Distinct, Readable, Honest, Size;
    if Ready(entries, limit, names) {
      HonestAt(entries, limit, names, |names| - 1);
    }
    if Bytes(entries, names) <= limit {
      forall k | 0 <= k < |names|
        ensures Readable(entries, limit, names[..k], names[k])
      {
        HonestAt(entries, limit, names, k);
      }
    }
  }

  lemma NotBefore(names: seq<string>, k: nat)
    requires Distinct(names) && k < |names|
    ensures names[k] !in names[..k]
  {
  }

  /** The archive that a manifest describes: every file listed once, none else, and each of its declared size. */
  ghost predicate Describes(files: seq<Entry>, checks: Checks, m: Manifest) {
    && Distinct(FileNames(files)) && Distinct(Listed(m)) && (forall n :: n in FileNames(files) ==> checks.path(n))
    && (forall name :: name in Listed(m) <==> exists k :: IsFile(files, k, name))
    && (forall k, name :: IsFile(files, k, name) ==> Honest(files[k]))
    && (exists text :: HasFile(files, "manifest.json", text) && checks.manifest(text) == Some(m))
    && m.pages != [] && (forall k :: 0 <= k < |m.pages| ==> DescribesPage(files, checks, m.pages[k]))
    && (forall k :: 0 <= k < |m.media| ==> DescribesResource(checks, m.media[k], "media/"))
    && (forall k :: 0 <= k < |m.attachments| ==> DescribesResource(checks, m.attachments[k], "attachments/"))
  }

  ghost predicate DescribesPage(files: seq<Entry>, checks: Checks, page: PageEntry) {
    var slug := TrimSpace(page.slug);
    && checks.slug(slug) && page.markdown == "pages/" + slug + ".md" && page.metadata == "metadata/" + slug + ".json"
    && exists text :: HasFile(files, page.metadata, text) && checks.metadata(slug, text)
  }

  ghost predicate DescribesResource(checks: Checks, resource: ResourceEntry, section: string) {
    section <= resource.path && checks.base(resource.path) == resource.filename && TrimSpace(resource.filename) != ""
  }

  lemma FileContent(files: seq<Entry>, name: string, content: string)
    requires Distinct(FileNames(files)) && HasFile(files, name, content)
    ensures name in EntriesOf(files) && EntriesOf(files)[name].content == Some(content)
  {
    hide Distinct, FileNames;
    var k :| IsFile(files, k, name) && files[k].content == Some(content);
    EntriesAre(files, k, name);
  }

  lemma DescribedPage(files: seq<Entry>, checks: Checks, page: PageEntry)
    requires Distinct(FileNames(files)) && DescribesPage(files, checks, page)
    ensures PageOk(page, checks, EntriesOf(files))
  {
    hide Distinct, FileNames, EntriesOf, TrimSpace, HasFile;
    var text :| HasFile(files, page.metadata, text) && checks.metadata(TrimSpace(page.slug), text);
    FileContent(files, page.metadata, text);
  }

  lemma DescribedEntries(files: seq<Entry>, checks: Checks, m: Manifest)
    requires Describes(files, checks, m)
    ensures (set n | n in Listed(m)) == EntriesOf(files).Keys
    ensures forall k :: 0 <= k < |Listed(m)| ==> Listed(m)[k] in EntriesOf(files) && Honest(EntriesOf(files)[Listed(m)[k]])
    ensures "manifest.json" in EntriesOf(files) && EntriesOf(files)["manifest.json"].content.Some? && checks.manifest(EntriesOf(files)["manifest.json"].content.value) == Some(m)
  {
    hide Distinct, FileNames, EntriesOf, Listed, DescribesPage, DescribesResource, Honest;
    forall name
      ensures name in Listed(m) <==> name in EntriesOf(files)
      ensures name in Listed(m) ==> name in EntriesOf(files) && Honest(EntriesOf(files)[name])
    {
      if k :| IsFile(files, k, name) {
        EntriesAre(files, k, name);
      }
      EntriesAre(files, 0, name);
    }
    var text :| HasFile(files, "manifest.json", text) && checks.manifest(text) == Some(m);
    FileContent(files, "manifest.json", text);
  }

  /** Such an archive is accepted exactly if the sizes of its files add up to no more than the limit. */
  lemma DescribedIsAccepted(files: seq<Entry>, limit: int, checks: Checks, m: Manifest)
    requires Describes(files, checks, m) && limit > 0
    ensures Accepted(files, limit, checks) <==> Bytes(EntriesOf(files), Listed(m)) <= limit
  {
    hide Distinct, FileNames, EntriesOf, DescribesPage, Honest, PageOk, Bytes, Ready, IsFile, PagePaths, ResourcePaths;
    DescribedEntries(files, checks, m);
    forall k | 0 <= k < |m.pages|
      ensures PageOk(m.pages[k], checks, EntriesOf(files))
    {
      DescribedPage(files, checks, m.pages[k]);
    }
    assert Listed(m) != [];
    hide Listed;
    HonestFit(EntriesOf(files), limit, Listed(m));
  }
}
