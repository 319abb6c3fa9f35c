/** The bundle a completed export leaves, file by file, under the paths and with
    the log entries it is read by. */
module ExportedFiles {
  import opened Sequences
  import opened Export
  import opened ExportProperties

  /** The file of a page lies in the directory of its kind. */
  predicate IsFileOf(path: string, p: Page) {
    path == if p.isEntity then "entities/" + p.slug + ".md" else "sources/" + p.slug + ".md"
  }

  lemma PathIsFile(p: Page, path: string)
    ensures path == PagePath(p) <==> IsFileOf(path, p)
    ensures PagePath(p)[0] == if p.isEntity then 'e' else 's'
  {
    assert "entities" + "/" == "entities/" && "sources" + "/" == "sources/";
  }

  predicate IsOwnFile(path: string) {
    path in [".rag-wiki-export-manifest.json", "log.md", "index.md", "entities/index.md", "sources/index.md"]
  }

  lemma OwnFilesAreReserved(path: string)
    ensures Reserved(path) <==> IsOwnFile(path)
  {
  }

  /** Every page has its rendering in its file, and there is no file besides these and the export's own five. */
  lemma PageFiles(r: Rendering, files: Bundle, prev: seq<Page>, pages: seq<Page>)
    requires Synced(files, prev) && Exportable(pages) && Sorts(r)
    ensures var after := Exported(r, files, pages);
      && (forall p :: p in pages && p.isEntity ==>
            "entities/" + p.slug + ".md" in after && after["entities/" + p.slug + ".md"] == Text(p.rendered))
      && (forall p :: p in pages && !p.isEntity ==>
            "sources/" + p.slug + ".md" in after && after["sources/" + p.slug + ".md"] == Text(p.rendered))
      && forall path :: path in after && !IsOwnFile(path) ==> exists p :: p in pages && IsFileOf(path, p)
  {
    ExportSyncs(r, files, prev, pages);
    hide *;
    var after := Exported(r, files, pages);
    SyncedIsExact(after, pages);
    forall p | p in pages && p.isEntity
      ensures "entities/" + p.slug + ".md" in after && after["entities/" + p.slug + ".md"] == Text(p.rendered)
    {
      EntityFile(after, p);
    }
    forall p | p in pages && !p.isEntity
      ensures "sources/" + p.slug + ".md" in after && after["sources/" + p.slug + ".md"] == Text(p.rendered)
    {
      SourceFile(after, p);
    }
    forall path | path in after && !IsOwnFile(path) ensures exists p :: p in pages && IsFileOf(path, p) {
      OwnFilesAreReserved(path);
      var p := PageOfPath(pages, path);
      PathIsFile(p, path);
    }
  }

  lemma SyncedIsExact(files: Bundle, pages: seq<Page>)
    requires Synced(files, pages)
    ensures forall p :: p in pages ==> PageWritten(files, p)
    ensures forall path :: path in files && !Reserved(path) ==> path in Paths(pages)
    ensures LoadManifest(files) == NewState(pages) && Exportable(pages)
  {
    hide PageWritten, Paths, Reserved;
  }

  lemma EntityFile(files: Bundle, p: Page)
    requires PageWritten(files, p) && p.isEntity
    ensures "entities/" + p.slug + ".md" in files && files["entities/" + p.slug + ".md"] == Text(p.rendered)
  {
    PathIsFile(p, "entities/" + p.slug + ".md");
  }

  lemma SourceFile(files: Bundle, p: Page)
    requires PageWritten(files, p) && !p.isEntity
    ensures "sources/" + p.slug + ".md" in files && files["sources/" + p.slug + ".md"] == Text(p.rendered)
  {
    PathIsFile(p, "sources/" + p.slug + ".md");
  }

  lemma PageOfPath(pages: seq<Page>, path: string) returns (p: Page)
    requires path in Paths(pages)
    ensures p in pages && PagePath(p) == path
  {
    p :| p in pages && PagePath(p) == path;
  }

  /** A file under entities/ belongs to an entity page, one under sources/ to a source page. */
  lemma DirectoriesHoldTheirKind(r: Rendering, files: Bundle, prev: seq<Page>, pages: seq<Page>, path: string)
    requires Synced(files, prev) && Exportable(pages) && Sorts(r)
    requires path in Exported(r, files, pages) && !IsOwnFile(path)
    ensures "entities/" <= path ==> exists p :: p in pages && p.isEntity && path == "entities/" + p.slug + ".md"
    ensures "sources/" <= path ==> exists p :: p in pages && !p.isEntity && path == "sources/" + p.slug + ".md"
  {
    PageFiles(r, files, prev, pages);
    hide Synced, Exportable, Sorts, Exported, IsOwnFile;
    var p :| p in pages && IsFileOf(path, p);
    assert path[0] == if p.isEntity then 'e' else 's';
    assert "entities/" <= path ==> path[0] == "entities/"[0];
    assert "sources/" <= path ==> path[0] == "sources/"[0];
  }

  /** The same after any number of runs, for the pages of the last one. */
  lemma RunsLeavePageFiles(r: Rendering, runs: seq<seq<Page>>)
    requires Sorts(r) && runs != [] && forall pages :: pages in runs ==> Exportable(pages)
    ensures var after, pages := AfterRuns(r, runs), runs[|runs| - 1];
      && (forall p :: p in pages && p.isEntity ==>
            "entities/" + p.slug + ".md" in after && after["entities/" + p.slug + ".md"] == Text(p.rendered))
      && (forall p :: p in pages && !p.isEntity ==>
            "sources/" + p.slug + ".md" in after && after["sources/" + p.slug + ".md"] == Text(p.rendered))
      && forall path :: path in after && !IsOwnFile(path) ==> exists p :: p in pages && IsFileOf(path, p)
  {
    var front := runs[..|runs| - 1];
    RunsStaySynced(r, front);
    hide Synced, Exportable, Sorts, Exported, IsOwnFile, IsFileOf;
    PageFiles(r, AfterRuns(r, front), LastRun(front), runs[|runs| - 1]);
  }

  /** Any run over any bundle writes the three indexes and a manifest of exactly the pages' paths and hashes. */
  lemma OwnFiles(r: Rendering, files: Bundle, pages: seq<Page>)
    requires Exportable(pages) && Sorts(r)
    ensures var after := Exported(r, files, pages);
      && "index.md" in after && after["index.md"] == Text(r.index("index.md", pages))
      && "entities/index.md" in after && after["entities/index.md"] == Text(r.index("entities/index.md", pages))
      && "sources/index.md" in after && after["sources/index.md"] == Text(r.index("sources/index.md", pages))
    ensures var after := Exported(r, files, pages);
      && ".rag-wiki-export-manifest.json" in after && after[".rag-wiki-export-manifest.json"].ManifestFile?
      && var hashes := after[".rag-wiki-export-manifest.json"].hashes;
         && (forall path :: path in hashes <==> exists p :: p in pages && IsFileOf(path, p))
         && forall path, p :: path in hashes && p in pages && IsFileOf(path, p) ==> hashes[path] == Digest(p.rendered)
  {
    hide *;
    SavedInStages(r, files, pages);
    ExportedIsSavedAndLogged(r, files, pages);
    OwnNamesDiffer();
    ManifestOf(pages);
    OwnEntries(r, PagesSettled(r, files, pages), pages);
  }

  lemma OwnEntries(r: Rendering, files: Bundle, pages: seq<Page>)
    ensures var after := WithIndexes(r, files, pages);
      && ROOT_INDEX in after && after[ROOT_INDEX] == Text(r.index(ROOT_INDEX, pages))
      && ENTITY_INDEX in after && after[ENTITY_INDEX] == Text(r.index(ENTITY_INDEX, pages))
      && SOURCE_INDEX in after && after[SOURCE_INDEX] == Text(r.index(SOURCE_INDEX, pages))
      && MANIFEST in after && after[MANIFEST] == ManifestFile(NewState(pages))
  {
    OwnNamesDiffer();
    hide NewState;
  }

  lemma OwnNamesDiffer()
    ensures MANIFEST == ".rag-wiki-export-manifest.json" && LOG == "log.md" && ROOT_INDEX == "index.md"
    ensures ENTITY_INDEX == "entities/index.md" && SOURCE_INDEX == "sources/index.md"
    ensures MANIFEST != LOG && ROOT_INDEX != LOG && ENTITY_INDEX != LOG && SOURCE_INDEX != LOG
    ensures ROOT_INDEX !in {MANIFEST, ENTITY_INDEX, SOURCE_INDEX} && ENTITY_INDEX !in {MANIFEST, SOURCE_INDEX}
    ensures SOURCE_INDEX != MANIFEST
  {
    assert |MANIFEST| == 30 && |LOG| == 6 && |ROOT_INDEX| == 8 && |ENTITY_INDEX| == 17 && |SOURCE_INDEX| == 16;
  }

  lemma ManifestOf(pages: seq<Page>)
    requires Exportable(pages)
    ensures forall path :: path in NewState(pages) <==> exists p :: p in pages && IsFileOf(path, p)
    ensures forall path, p :: path in NewState(pages) && p in pages && IsFileOf(path, p) ==>
      NewState(pages)[path] == Digest(p.rendered)
  {
    ExportablePaths(pages);
    NewStateHashes(pages);
    forall path, p: Page ensures path == PagePath(p) <==> IsFileOf(path, p) {
      PathIsFile(p, path);
    }
    hide PagePath, IsFileOf, Exportable, NewState;
    forall path ensures path in NewState(pages) <==> exists p :: p in pages && IsFileOf(path, p) {
      if path in NewState(pages) {
        assert path in Paths(pages);
      }
      if p :| p in pages && IsFileOf(path, p) {
        assert path in Paths(pages);
      }
    }
  }

  // ---- The log of one run ----

  /** p has the same rendering at the same path among the given pages. */
  ghost predicate IsUnchangedIn(prev: seq<Page>, p: Page) {
    exists q :: q in prev && q.isEntity == p.isEntity && q.slug == p.slug && q.rendered == p.rendered
  }

  /** Some page of the given ones has p's path. */
  ghost predicate HasPathIn(prev: seq<Page>, p: Page) {
    exists q :: q in prev && q.isEntity == p.isEntity && q.slug == p.slug
  }

  /** What a run logs, given the pages of the run before. */
  ghost predicate Logged(r: Rendering, prev: seq<Page>, pages: seq<Page>, e: LogEntry) {
    || (exists p :: p in pages && !IsUnchangedIn(prev, p) && IsFileOf(e.path, p) && e.title == p.title
          && e.action == if HasPathIn(prev, p) then Modified else Added)
    || (exists q :: q in prev && !HasPathIn(pages, q) && IsFileOf(e.path, q) && e.title == r.stem(e.path)
          && e.action == Removed)
  }

  lemma SamePath(p: Page, q: Page)
    ensures PagePath(p) == PagePath(q) <==> p.isEntity == q.isEntity && p.slug == q.slug
  {
    if PagePath(p) == PagePath(q) {
      PathsIdentifySlugs(p, q);
      PathIsFile(p, PagePath(p));
      PathIsFile(q, PagePath(p));
    }
  }

  /** The log keeps its entries and gains exactly those of the run: one for each page added, modified or removed. */
  lemma LogGrowsBy(r: Rendering, files: Bundle, prev: seq<Page>, pages: seq<Page>)
    requires Synced(files, prev) && Exportable(pages) && Sorts(r)
    ensures var before, after := LoadLog(files).entries, LoadLog(Exported(r, files, pages)).entries;
      before <= after && forall e :: e in after[|before|..] <==> Logged(r, prev, pages, e)
  {
    hide *;
    var entries := Entries(r, NewState(prev), pages);
    SyncedIsExact(files, prev);
    LogIs(r, files, prev, pages);
    EntriesAre(r, prev, pages);
  }

  /** front starts the log file: plain text stays in front of the entries, and so do earlier entries. */
  predicate StartsWith(log: File, front: File) {
    match front
    case Text(content) => log == front || (log.LogFile? && log.preamble == content)
    case LogFile(preamble, entries) => log.LogFile? && log.preamble == preamble && entries <= log.entries
    case ManifestFile(_) => true
  }

  /** Whatever was in the log before a run stays at its start; a new log starts empty. */
  lemma LogKeepsItsStart(r: Rendering, files: Bundle, pages: seq<Page>)
    requires Exportable(pages) && Sorts(r) && "log.md" !in LoadManifest(files)
    ensures var after := Exported(r, files, pages);
      && ("log.md" in files ==> "log.md" in after && StartsWith(after["log.md"], files["log.md"]))
      && ("log.md" !in files && "log.md" in after ==> after["log.md"].LogFile? && after["log.md"].preamble == "")
  {
    OwnNamesDiffer();
    SavedPages(r, files, pages);
    SavedKeepsLog(r, files, pages);
    ExportedIsSavedAndLogged(r, files, pages);
    hide Exported, Saved, Entries, NewState, PagesExact, Sorts, Exportable;
    assert AgreeAt(Saved(r, files, pages), files, LOG);
  }

  lemma LogIs(r: Rendering, files: Bundle, prev: seq<Page>, pages: seq<Page>)
    requires Synced(files, prev) && Exportable(pages) && Sorts(r)
    ensures LoadLog(Exported(r, files, pages)).entries
         == LoadLog(files).entries + Entries(r, NewState(prev), pages)
  {
    SyncedIsReady(files, prev, pages);
    SavedKeepsLog(r, files, pages);
    ExportedIsSavedAndLogged(r, files, pages);
    hide Exported, Saved, Entries, NewState, PagesExact, Sorts, Replay, Exportable;
    var log := LoadLog(files).entries;
    assert log + [] == log;
  }

  lemma {:induction false} PageEntriesAre(manifest: Manifest, pages: seq<Page>, e: LogEntry)
    ensures e in PageEntries(manifest, pages)
       <==> exists p :: p in pages && !Unchanged(manifest, p) && e == EntryFor(manifest, p)
  {
    if pages == [] {
    } else {
      var n := |pages| - 1;
      assert pages == pages[..n] + [pages[n]];
      PageEntriesAre(manifest, pages[..n], e);
      PageEntriesStep(manifest, pages[..n], pages[n]);
      hide PageEntries, EntryFor, Unchanged;
    }
  }

  lemma RemovalsAre(r: Rendering, manifest: Manifest, pages: seq<Page>, e: LogEntry)
    requires Sorts(r)
    ensures e in Image(RemovalOf(r), r.sorted(RemovedPaths(manifest, pages)))
       <==> e.path in manifest && e.path !in NewState(pages) && e == LogEntry(Removed, e.path, r.stem(e.path))
  {
    hide NewState;
    var removed := r.sorted(RemovedPaths(manifest, pages));
    var entries := Image(RemovalOf(r), removed);
    assert forall path :: path in Members(removed) <==> path in manifest && path !in NewState(pages);
    if e in entries {
      var i :| 0 <= i < |entries| && entries[i] == e;
      assert removed[i] in Members(removed);
    }
    if e.path in Members(removed) && e == LogEntry(Removed, e.path, r.stem(e.path)) {
      var i :| 0 <= i < |removed| && removed[i] == e.path;
      assert entries[i] == e;
    }
  }

  lemma UnchangedIs(prev: seq<Page>, p: Page)
    requires Exportable(prev)
    ensures Unchanged(NewState(prev), p) <==> IsUnchangedIn(prev, p)
    ensures PagePath(p) in NewState(prev) <==> HasPathIn(prev, p)
  {
    ExportablePaths(prev);
    NewStateHashes(prev);
    UnchangedMeansSame(prev, p);
    forall q: Page ensures PagePath(q) == PagePath(p) <==> q.isEntity == p.isEntity && q.slug == p.slug {
      SamePath(q, p);
    }
    hide PagePath, Unchanged, NewState, Exportable;
    if PagePath(p) in Paths(prev) {
      var q :| q in prev && PagePath(q) == PagePath(p);
    }
  }

  lemma EntriesAre(r: Rendering, prev: seq<Page>, pages: seq<Page>)
    requires Exportable(prev) && Exportable(pages) && Sorts(r)
    ensures forall e :: e in Entries(r, NewState(prev), pages) <==> Logged(r, prev, pages, e)
  {
    hide NewState, Exportable, Unchanged, PageEntries, IsUnchangedIn, HasPathIn, Sorts, RemovedPaths, PagePath,
      IsFileOf;
    forall e ensures e in Entries(r, NewState(prev), pages) <==> Logged(r, prev, pages, e) {
      PageEntriesAre(NewState(prev), pages, e);
      RemovalsAre(r, NewState(prev), pages, e);
      AddedIs(prev, pages, e);
      RemovedIs(r, prev, pages, e);
    }
  }

  lemma AddedIs(prev: seq<Page>, pages: seq<Page>, e: LogEntry)
    requires Exportable(prev)
    ensures (exists p :: p in pages && !Unchanged(NewState(prev), p) && e == EntryFor(NewState(prev), p))
       <==> exists p :: p in pages && !IsUnchangedIn(prev, p) && IsFileOf(e.path, p) && e.title == p.title
              && e.action == if HasPathIn(prev, p) then Modified else Added
  {
    forall p: Page
      ensures Unchanged(NewState(prev), p) <==> IsUnchangedIn(prev, p)
      ensures PagePath(p) in NewState(prev) <==> HasPathIn(prev, p)
      ensures e.path == PagePath(p) <==> IsFileOf(e.path, p)
    {
      UnchangedIs(prev, p);
      PathIsFile(p, e.path);
    }
    hide NewState, Exportable, Unchanged, IsUnchangedIn, HasPathIn, PagePath, IsFileOf;
  }

  lemma RemovedIs(r: Rendering, prev: seq<Page>, pages: seq<Page>, e: LogEntry)
    requires Exportable(prev) && Exportable(pages)
    ensures e.path in NewState(prev) && e.path !in NewState(pages) && e == LogEntry(Removed, e.path, r.stem(e.path))
       <==> exists q :: q in prev && !HasPathIn(pages, q) && IsFileOf(e.path, q) && e.title == r.stem(e.path)
              && e.action == Removed
  {
    ManifestOf(prev);
    forall q: Page ensures PagePath(q) in NewState(pages) <==> HasPathIn(pages, q) {
      UnchangedIs(pages, q);
    }
    forall q: Page ensures e.path == PagePath(q) <==> IsFileOf(e.path, q) {
      PathIsFile(q, e.path);
    }
    hide NewState, Exportable, HasPathIn, PagePath, IsFileOf;
  }

  /** The run counts the pages that are not unchanged. */
  lemma {:induction false} CountsChanges(manifest: Manifest, pages: seq<Page>)
    ensures |PageOps(manifest, pages)| == |PageEntries(manifest, pages)|
  {
    if pages == [] {
    } else {
      CountsChanges(manifest, pages[..|pages| - 1]);
    }
  }
}
