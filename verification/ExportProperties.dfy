/** What the export guarantees over any sequence of runs, with interrupted
    runs in between, and exactly when a run leaves the right pages. */
module ExportProperties {
  import opened Sequences
  import opened Slugs
  import opened Export

  // ---- Paths ----

  lemma PathsIdentifySlugs(p: Page, q: Page)
    requires PagePath(p) == PagePath(q)
    ensures p.slug == q.slug
  {
    var a, b := PagePath(p), PagePath(q);
    assert a[0] == if p.isEntity then 'e' else 's';
    assert b[0] == if q.isEntity then 'e' else 's';
    var n := if p.isEntity then 9 else 8;
    assert a[n..|a| - 3] == p.slug && b[n..|b| - 3] == q.slug;
  }

  lemma PagePathIsNotReserved(p: Page)
    requires p.slug != "index"
    ensures !Reserved(PagePath(p))
  {
    var path := PagePath(p);
    assert path[0] == if p.isEntity then 'e' else 's';
    PathsIdentifyIndexes(p);
  }

  lemma PathsIdentifyIndexes(p: Page)
    ensures PagePath(p) in {ENTITY_INDEX, SOURCE_INDEX} ==> p.slug == "index"
  {
    var entities, sources := Page("index", true, "", ""), Page("index", false, "", "");
    assert PagePath(entities) == ENTITY_INDEX && PagePath(sources) == SOURCE_INDEX;
    if PagePath(p) == ENTITY_INDEX {
      PathsIdentifySlugs(p, entities);
    }
    if PagePath(p) == SOURCE_INDEX {
      PathsIdentifySlugs(p, sources);
    }
  }

  /** Generated slugs never lead a page to a reserved file. */
  lemma GeneratedPathsAreSafe(name: string, id: string, p: Page)
    requires |id| >= 8 && p.slug == GenerateSlug(name, id)
    ensures !Reserved(PagePath(p))
  {
    SlugIsNotIndex(name, id);
    PagePathIsNotReserved(p);
  }

  lemma ReservedNamesDiffer()
    ensures Distinct([MANIFEST, LOG, ROOT_INDEX, ENTITY_INDEX, SOURCE_INDEX])
  {
    assert |MANIFEST| == 30 && |LOG| == 6 && |ROOT_INDEX| == 8 && |ENTITY_INDEX| == 17 && |SOURCE_INDEX| == 16;
  }

  function Paths(pages: seq<Page>): set<string> { set p | p in pages :: PagePath(p) }

  ghost predicate PathsIdentifyPages(pages: seq<Page>) {
    && (forall i, j :: 0 <= i < j < |pages| ==> PagePath(pages[i]) != PagePath(pages[j]))
    && (forall p, q :: p in pages && q in pages && PagePath(p) == PagePath(q) ==> p == q)
  }

  lemma ExportablePaths(pages: seq<Page>)
    requires Exportable(pages)
    ensures PathsIdentifyPages(pages)
    ensures forall x :: x in Paths(pages) ==> !Reserved(x)
  {
    forall i, j | 0 <= i < j < |pages| ensures PagePath(pages[i]) != PagePath(pages[j]) {
      assert Image(Slug, pages)[i] != Image(Slug, pages)[j];
      if PagePath(pages[i]) == PagePath(pages[j]) {
        PathsIdentifySlugs(pages[i], pages[j]);
      }
    }
    forall p | p in pages ensures !Reserved(PagePath(p)) {
      PagePathIsNotReserved(p);
    }
  }

  lemma {:induction false} NewStateHashes(pages: seq<Page>)
    requires PathsIdentifyPages(pages)
    ensures NewState(pages).Keys == Paths(pages)
    ensures forall p :: p in pages ==> NewState(pages)[PagePath(p)] == PageHash(p)
  {
    hide *;
    if pages == [] {
      NothingHashed();
    } else {
      var n := |pages| - 1;
      assert pages == pages[..n] + [pages[n]];
      FrontIsIdentified(pages[..n], pages[n]);
      NewStateHashes(pages[..n]);
      LastHash(pages[..n], pages[n]);
    }
  }

  lemma NothingHashed()
    ensures NewState([]).Keys == Paths([])
  {
  }

  lemma FrontIsIdentified(front: seq<Page>, last: Page)
    requires PathsIdentifyPages(front + [last])
    ensures PathsIdentifyPages(front) && PagePath(last) !in Paths(front)
  {
    hide PagePath;
    var pages := front + [last];
    assert forall i :: 0 <= i < |front| ==> pages[i] == front[i];
    assert pages[|front|] == last;
  }

  lemma LastHash(front: seq<Page>, last: Page)
    requires NewState(front).Keys == Paths(front) && PagePath(last) !in Paths(front)
    requires forall p :: p in front ==> NewState(front)[PagePath(p)] == PageHash(p)
    ensures NewState(front + [last]).Keys == Paths(front + [last])
    ensures forall p :: p in front + [last] ==> NewState(front + [last])[PagePath(p)] == PageHash(p)
  {
    hide PagePath, PageHash;
    assert (front + [last])[..|front|] == front;
    assert forall p :: p in front ==> PagePath(p) in Paths(front);
  }

  /** The new manifest marks exactly the pages it was made from as unchanged. */
  lemma UnchangedMeansSame(prev: seq<Page>, q: Page)
    requires PathsIdentifyPages(prev)
    ensures Unchanged(NewState(prev), q)
       <==> exists p :: p in prev && PagePath(p) == PagePath(q) && p.rendered == q.rendered
  {
    NewStateHashes(prev);
    if PagePath(q) in NewState(prev) {
      assert PagePath(q) in Paths(prev);
    }
  }

  // ---- What a list of operations does to one path ----

  predicate Touched(ops: seq<Op>, x: string) { exists i :: 0 <= i < |ops| && ops[i].path == x }

  predicate AgreeAt(a: Bundle, b: Bundle, x: string) { (x in a <==> x in b) && (x in a ==> a[x] == b[x]) }

  /** Untouched paths keep their file; touched paths end up the same whatever was there. */
  lemma {:induction false} OpsAreOverwrites(a: Bundle, b: Bundle, ops: seq<Op>, x: string)
    ensures !Touched(ops, x) ==> AgreeAt(ApplyAll(a, ops), a, x)
    ensures Touched(ops, x) ==> AgreeAt(ApplyAll(a, ops), ApplyAll(b, ops), x)
  {
    if ops == [] {
    } else {
      var n := |ops| - 1;
      OpsAreOverwrites(a, b, ops[..n], x);
      if Touched(ops[..n], x) {
        var i :| 0 <= i < n && ops[..n][i].path == x;
        assert ops[i].path == x;
      } else {
        assert forall i :: 0 <= i < n ==> ops[i] == ops[..n][i];
        assert Touched(ops, x) <==> ops[n].path == x;
      }
    }
  }

  lemma SamePathsSameBundle(a: Bundle, b: Bundle)
    requires forall x :: AgreeAt(a, b, x)
    ensures a == b
  {
    assert forall x :: x in a ==> AgreeAt(a, b, x);
    assert forall x :: x in b ==> AgreeAt(a, b, x);
  }

  lemma TouchedPrefix(ops: seq<Op>, k: nat, x: string)
    requires k <= |ops| && Touched(ops[..k], x)
    ensures Touched(ops, x)
  {
    var i :| 0 <= i < k && ops[..k][i].path == x;
    assert ops[i].path == x;
  }

  /** Interrupting a list of operations and running it again from the start changes nothing. */
  lemma RestartIsHarmless(files: Bundle, ops: seq<Op>, k: nat)
    requires k <= |ops|
    ensures ApplyAll(ApplyAll(files, ops[..k]), ops) == ApplyAll(files, ops)
  {
    var partial := ApplyAll(files, ops[..k]);
    forall x ensures AgreeAt(ApplyAll(partial, ops), ApplyAll(files, ops), x) {
      OpsAreOverwrites(partial, files, ops, x);
      OpsAreOverwrites(files, files, ops, x);
      OpsAreOverwrites(files, files, ops[..k], x);
      if Touched(ops[..k], x) {
        TouchedPrefix(ops, k, x);
      }
    }
    SamePathsSameBundle(ApplyAll(partial, ops), ApplyAll(files, ops));
  }

  // ---- What an export leaves at each path ----

  predicate PageWritten(after: Bundle, p: Page) {
    PagePath(p) in after && after[PagePath(p)] == Text(p.rendered)
  }

  predicate Rewritten(manifest: Manifest, pages: seq<Page>, x: string) {
    exists p :: p in pages && PagePath(p) == x && !Unchanged(manifest, p)
  }

  lemma {:induction false} PageOpsWrite(files: Bundle, manifest: Manifest, pages: seq<Page>)
    requires PathsIdentifyPages(pages)
    ensures forall p :: p in pages && !Unchanged(manifest, p) ==>
      PageWritten(ApplyAll(files, PageOps(manifest, pages)), p)
    ensures forall x :: !Rewritten(manifest, pages, x) ==>
      AgreeAt(ApplyAll(files, PageOps(manifest, pages)), files, x)
  {
    if pages == [] {
    } else {
      var n := |pages| - 1;
      var p, front := pages[n], pages[..n];
      assert pages == front + [p];
      PageOpsWrite(files, manifest, front);
      assert forall q :: q in front ==> PagePath(q) != PagePath(p);
      var before, after := ApplyAll(files, PageOps(manifest, front)), ApplyAll(files, PageOps(manifest, pages));
      PageOpsStep(files, manifest, front, p);
      hide *;
      PageWriteStep(files, before, after, manifest, front, p);
    }
  }

  lemma PageOpsStep(files: Bundle, manifest: Manifest, front: seq<Page>, p: Page)
    ensures var before := ApplyAll(files, PageOps(manifest, front));
      ApplyAll(files, PageOps(manifest, front + [p]))
        == if Unchanged(manifest, p) then before else before[PagePath(p) := Text(p.rendered)]
  {
    assert (front + [p])[..|front|] == front;
    ApplyNext(files, PageOps(manifest, front), Write(PagePath(p), Text(p.rendered)));
    assert PageOps(manifest, front) + [] == PageOps(manifest, front);
  }

  lemma PageWriteStep(files: Bundle, before: Bundle, after: Bundle, manifest: Manifest, front: seq<Page>, p: Page)
    requires forall q :: q in front ==> PagePath(q) != PagePath(p)
    requires forall q :: q in front && !Unchanged(manifest, q) ==> PageWritten(before, q)
    requires forall x :: !Rewritten(manifest, front, x) ==> AgreeAt(before, files, x)
    requires after == if Unchanged(manifest, p) then before else before[PagePath(p) := Text(p.rendered)]
    ensures forall q :: q in front + [p] && !Unchanged(manifest, q) ==> PageWritten(after, q)
    ensures forall x :: !Rewritten(manifest, front + [p], x) ==> AgreeAt(after, files, x)
  {
    hide PagePath, Unchanged;
    forall x | !Rewritten(manifest, front + [p], x) ensures AgreeAt(after, files, x) {
      assert forall q :: q in front + [p] && PagePath(q) == x ==> Unchanged(manifest, q);
      assert p in front + [p];
      assert !Rewritten(manifest, front, x) && AgreeAt(before, files, x);
    }
  }

  lemma {:induction false} DeletionsRemove(files: Bundle, paths: seq<string>)
    ensures ApplyAll(files, Image(DeleteOf, paths)) == files - Members(paths)
  {
    if paths != [] {
      var n := |paths| - 1;
      DeletionsRemove(files, paths[..n]);
      assert paths == paths[..n] + [paths[n]];
      ImageAppend(DeleteOf, paths[..n], paths[n]);
      ApplyNext(files, Image(DeleteOf, paths[..n]), Delete(paths[n]));
    } else {
      assert Image(DeleteOf, paths) == [];
    }
  }

  function Saved(r: Rendering, files: Bundle, pages: seq<Page>): Bundle {
    ApplyAll(files, OpsUpToSave(r, files, pages))
  }

  /** The files after the page loop and the orphan deletions, before the index, manifest and log writes. */
  function PagesSettled(r: Rendering, files: Bundle, pages: seq<Page>): Bundle {
    ApplyAll(files, PageOps(LoadManifest(files), pages)) - RemovedPaths(LoadManifest(files), pages)
  }

  function WithIndexes(r: Rendering, files: Bundle, pages: seq<Page>): Bundle {
    files[ROOT_INDEX := Text(r.index(ROOT_INDEX, pages))]
         [ENTITY_INDEX := Text(r.index(ENTITY_INDEX, pages))]
         [SOURCE_INDEX := Text(r.index(SOURCE_INDEX, pages))]
         [MANIFEST := ManifestFile(NewState(pages))]
  }

  lemma SavedInStages(r: Rendering, files: Bundle, pages: seq<Page>)
    requires Sorts(r)
    ensures Saved(r, files, pages) == WithIndexes(r, PagesSettled(r, files, pages), pages)
  {
    var manifest := LoadManifest(files);
    var writes, deletes, indexes := PageOps(manifest, pages), Deletions(r, manifest, pages), IndexOps(r, pages);
    ApplyNext(files, writes + deletes + indexes, Write(MANIFEST, ManifestFile(NewState(pages))));
    ApplyConcat(files, writes + deletes, indexes);
    ApplyConcat(files, writes, deletes);
    DeletionsRemove(ApplyAll(files, writes), r.sorted(RemovedPaths(manifest, pages)));
    IndexesWritten(PagesSettled(r, files, pages), r, pages);
  }

  lemma SavedOutsideIndexes(r: Rendering, files: Bundle, pages: seq<Page>, x: string)
    requires Sorts(r) && (!Reserved(x) || x == LOG)
    ensures AgreeAt(Saved(r, files, pages), PagesSettled(r, files, pages), x)
  {
    ReservedNamesDiffer();
    var names := [MANIFEST, LOG, ROOT_INDEX, ENTITY_INDEX, SOURCE_INDEX];
    assert names[1] !in {names[0], names[2], names[3], names[4]};
    assert x !in {MANIFEST, ROOT_INDEX, ENTITY_INDEX, SOURCE_INDEX};
    SavedInStages(r, files, pages);
  }

  lemma SavedManifest(r: Rendering, files: Bundle, pages: seq<Page>)
    requires Sorts(r)
    ensures LoadManifest(Saved(r, files, pages)) == NewState(pages)
  {
    SavedInStages(r, files, pages);
  }

  /** At any path x but the manifest and the indexes. */
  lemma SavedAt(r: Rendering, files: Bundle, pages: seq<Page>, x: string)
    requires Exportable(pages) && Sorts(r) && (!Reserved(x) || x == LOG)
    ensures var saved, manifest := Saved(r, files, pages), LoadManifest(files);
      && (forall p :: p in pages && PagePath(p) == x && !Unchanged(manifest, p) ==> PageWritten(saved, p))
      && (forall p :: p in pages && PagePath(p) == x && Unchanged(manifest, p) ==> AgreeAt(saved, files, x))
      && (x !in Paths(pages) ==> if x in manifest then x !in saved else AgreeAt(saved, files, x))
  {
    ExportablePaths(pages);
    NewStateHashes(pages);
    SavedOutsideIndexes(r, files, pages, x);
    var manifest := LoadManifest(files);
    PageOpsWrite(files, manifest, pages);
    var written := ApplyAll(files, PageOps(manifest, pages));
    var settled, saved := PagesSettled(r, files, pages), Saved(r, files, pages);
    assert settled == written - (manifest.Keys - Paths(pages));
    assert AgreeAt(saved, settled, x);
    SettledAt(files, manifest, pages, written, settled, x);
  }

  lemma SettledAt(files: Bundle, manifest: Manifest, pages: seq<Page>, written: Bundle, settled: Bundle, x: string)
    requires PathsIdentifyPages(pages)
    requires forall p :: p in pages && !Unchanged(manifest, p) ==> PageWritten(written, p)
    requires forall x :: !Rewritten(manifest, pages, x) ==> AgreeAt(written, files, x)
    requires settled == written - (manifest.Keys - Paths(pages))
    ensures forall p :: p in pages && PagePath(p) == x && !Unchanged(manifest, p) ==> PageWritten(settled, p)
    ensures forall p :: p in pages && PagePath(p) == x && Unchanged(manifest, p) ==> AgreeAt(settled, files, x)
    ensures x !in Paths(pages) ==> if x in manifest then x !in settled else AgreeAt(settled, files, x)
  {
    hide PagePath, Unchanged;
    assert forall p :: p in pages ==> PagePath(p) in Paths(pages);
    assert x !in Paths(pages) ==> !Rewritten(manifest, pages, x);
    if p :| p in pages && PagePath(p) == x && Unchanged(manifest, p) {
      assert !Rewritten(manifest, pages, x);
    }
  }

  /** Page paths: rewritten when changed, kept when unchanged, deleted when only the manifest
      knows them, otherwise not touched. */
  lemma SavedPages(r: Rendering, files: Bundle, pages: seq<Page>)
    requires Exportable(pages) && Sorts(r)
    ensures var saved, manifest := Saved(r, files, pages), LoadManifest(files);
      && LoadManifest(saved) == NewState(pages)
      && (forall p :: p in pages && !Unchanged(manifest, p) ==> PageWritten(saved, p))
      && (forall p :: p in pages && Unchanged(manifest, p) ==> AgreeAt(saved, files, PagePath(p)))
      && (forall x :: x !in Paths(pages) && x in manifest && !Reserved(x) ==> x !in saved)
      && (forall x :: x !in Paths(pages) && x !in manifest && !Reserved(x) ==> AgreeAt(saved, files, x))
      && (LOG !in manifest ==> AgreeAt(saved, files, LOG))
  {
    ExportablePaths(pages);
    SavedManifest(r, files, pages);
    assert forall p :: p in pages ==> PagePath(p) in Paths(pages);
    assert Reserved(LOG);
    hide *;
    forall x | !Reserved(x) || x == LOG ensures
      var saved, manifest := Saved(r, files, pages), LoadManifest(files);
      && (forall p :: p in pages && PagePath(p) == x && !Unchanged(manifest, p) ==> PageWritten(saved, p))
      && (forall p :: p in pages && PagePath(p) == x && Unchanged(manifest, p) ==> AgreeAt(saved, files, x))
      && (x !in Paths(pages) ==> if x in manifest then x !in saved else AgreeAt(saved, files, x))
    {
      SavedAt(r, files, pages, x);
    }
  }

  /** The log flush touches log.md alone. */
  lemma ExportedIsSavedAndLogged(r: Rendering, files: Bundle, pages: seq<Page>)
    ensures var saved, entries := Saved(r, files, pages), Entries(r, LoadManifest(files), pages);
      Exported(r, files, pages)
        == if entries == [] then saved
           else saved[LOG := LoadLog(saved).(entries := LoadLog(saved).entries + entries)]
  {
    var saved, entries := Saved(r, files, pages), Entries(r, LoadManifest(files), pages);
    FlushIsLast(files, r, pages);
    if entries != [] {
      ApplyNext(saved, [], LogOps(LoadLog(saved), entries)[0]);
      assert [] + [LogOps(LoadLog(saved), entries)[0]] == LogOps(LoadLog(saved), entries);
    }
  }

  // ---- Exactly when an export leaves the right pages ----

  /** Every page has its file, and there is no other page file. */
  ghost predicate PagesExact(files: Bundle, pages: seq<Page>) {
    && (forall p :: p in pages ==> PageWritten(files, p))
    && (forall x :: x in files && !Reserved(x) ==> x in Paths(pages))
  }

  /** What the manifest must not be wrong about. */
  ghost predicate Ready(files: Bundle, pages: seq<Page>) {
    var manifest := LoadManifest(files);
    && (forall p :: p in pages && Unchanged(manifest, p) ==> PageWritten(files, p))
    && (forall x :: x in files && !Reserved(x) && x !in Paths(pages) ==> x in manifest)
  }

  /** For every bundle, whatever its manifest says. */
  lemma ExactWhenReady(r: Rendering, files: Bundle, pages: seq<Page>)
    requires Exportable(pages) && Sorts(r)
    ensures PagesExact(Exported(r, files, pages), pages) <==> Ready(files, pages)
  {
    ExportablePaths(pages);
    SavedPages(r, files, pages);
    ExportedIsSavedAndLogged(r, files, pages);
    var saved, done, manifest := Saved(r, files, pages), Exported(r, files, pages), LoadManifest(files);
    assert forall x :: !Reserved(x) ==> AgreeAt(done, saved, x);
    assert forall x :: !Reserved(x) && x !in Paths(pages) && x !in manifest ==>
      AgreeAt(saved, files, x) && AgreeAt(done, saved, x);
    hide PagePath, Reserved, Exportable, Saved, Exported;
    if PagesExact(done, pages) {
      forall p | p in pages && Unchanged(manifest, p) ensures PageWritten(files, p) {
        assert PageWritten(done, p) && AgreeAt(done, saved, PagePath(p)) && AgreeAt(saved, files, PagePath(p));
      }
    }
    if Ready(files, pages) {
      forall p | p in pages ensures PageWritten(done, p) {
        assert AgreeAt(done, saved, PagePath(p));
        if Unchanged(manifest, p) {
          assert AgreeAt(saved, files, PagePath(p)) && PageWritten(files, p);
        }
      }
      forall x | x in done && !Reserved(x) ensures x in Paths(pages) {
        assert AgreeAt(done, saved, x);
      }
    }
  }

  // ---- Replaying the log ----

  /** Strict replay: only an absent path is added, only a present one modified or removed. */
  function Replay(paths: set<string>, entries: seq<LogEntry>): Option<set<string>> {
    if entries == [] then Some(paths)
    else
      match Replay(paths, entries[..|entries| - 1])
      case None => None
      case Some(before) =>
        var e := entries[|entries| - 1];
        if (e.path in before) == e.action.Added? then None
        else Some(if e.action.Removed? then before - {e.path} else before + {e.path})
  }

  lemma {:induction false} ReplayConcat(paths: set<string>, a: seq<LogEntry>, b: seq<LogEntry>)
    ensures Replay(paths, a + b)
      == match Replay(paths, a) { case None => None case Some(middle) => Replay(middle, b) }
  {
    if b == [] {
      assert a + b == a;
    } else {
      var n := |b| - 1;
      assert (a + b)[..|a + b| - 1] == a + b[..n];
      ReplayConcat(paths, a, b[..n]);
    }
  }

  function EntryFor(manifest: Manifest, p: Page): LogEntry {
    LogEntry(if PagePath(p) in manifest then Modified else Added, PagePath(p), p.title)
  }

  lemma PageEntriesStep(manifest: Manifest, front: seq<Page>, p: Page)
    ensures PageEntries(manifest, front + [p])
      == PageEntries(manifest, front) + if Unchanged(manifest, p) then [] else [EntryFor(manifest, p)]
    ensures Paths(front + [p]) == Paths(front) + {PagePath(p)}
  {
    assert (front + [p])[..|front|] == front;
  }

  lemma {:induction false} PageEntriesReplay(manifest: Manifest, pages: seq<Page>)
    requires PathsIdentifyPages(pages)
    ensures Replay(manifest.Keys, PageEntries(manifest, pages)) == Some(manifest.Keys + Paths(pages))
  {
    if pages == [] {
      assert manifest.Keys + Paths(pages) == manifest.Keys;
    } else {
      var n := |pages| - 1;
      var p, front := pages[n], pages[..n];
      assert pages == front + [p];
      PageEntriesReplay(manifest, front);
      PageEntriesStep(manifest, front, p);
      assert PagePath(p) !in Paths(front);
      hide *;
      ReplayPage(manifest, Paths(front), PageEntries(manifest, front), p);
    }
  }

  lemma ReplayPage(manifest: Manifest, paths: set<string>, entries: seq<LogEntry>, p: Page)
    requires Replay(manifest.Keys, entries) == Some(manifest.Keys + paths) && PagePath(p) !in paths
    ensures Replay(manifest.Keys, entries + if Unchanged(manifest, p) then [] else [EntryFor(manifest, p)])
      == Some(manifest.Keys + (paths + {PagePath(p)}))
  {
    hide PagePath;
    var path := PagePath(p);
    ReplayNext(manifest.Keys, entries, EntryFor(manifest, p));
    assert entries + [] == entries;
    assert manifest.Keys + (paths + {path}) == manifest.Keys + paths + {path};
    assert path in manifest ==> manifest.Keys + paths + {path} == manifest.Keys + paths;
  }

  lemma ReplayNext(paths: set<string>, entries: seq<LogEntry>, e: LogEntry)
    ensures Replay(paths, entries + [e])
      == match Replay(paths, entries)
         case None => None
         case Some(before) =>
           if (e.path in before) == e.action.Added? then None
           else Some(if e.action.Removed? then before - {e.path} else before + {e.path})
  {
    assert (entries + [e])[..|entries|] == entries;
  }

  lemma {:induction false} RemovalsReplay(r: Rendering, paths: set<string>, removed: seq<string>)
    requires Distinct(removed) && Members(removed) <= paths
    ensures Replay(paths, Image(RemovalOf(r), removed)) == Some(paths - Members(removed))
  {
    if removed == [] {
      assert paths - Members(removed) == paths;
    } else {
      var n := |removed| - 1;
      var front, path := removed[..n], removed[n];
      assert removed == front + [path];
      MembersAppend(front, path);
      assert path !in front && path in paths;
      RemovalsReplay(r, paths, front);
      ImageAppend(RemovalOf(r), front, path);
      assert RemovalOf(r)(path).action == Removed && RemovalOf(r)(path).path == path;
      assert path !in Members(front);
      hide *;
      ReplayNext(paths, Image(RemovalOf(r), front), RemovalOf(r)(path));
      assert paths - Members(front) - {path} == paths - (Members(front) + {path});
    }
  }

  /** Strict replay can be undone: the paths it ends with determine those it started from. */
  lemma {:induction false} ReplayIsInjective(a: set<string>, b: set<string>, entries: seq<LogEntry>)
    requires Replay(a, entries).Some? && Replay(a, entries) == Replay(b, entries)
    ensures a == b
  {
    if entries == [] {
    } else {
      var n := |entries| - 1;
      var e := entries[n];
      var before, other := Replay(a, entries[..n]).value, Replay(b, entries[..n]).value;
      hide Replay;
      StrictStepIsInjective(before, other, e);
      ReplayIsInjective(a, b, entries[..n]);
    }
  }

  lemma StrictStepIsInjective(before: set<string>, other: set<string>, e: LogEntry)
    requires (e.path in before) != e.action.Added? && (e.path in other) != e.action.Added?
    requires (if e.action.Removed? then before - {e.path} else before + {e.path})
      == if e.action.Removed? then other - {e.path} else other + {e.path}
    ensures before == other
  {
    forall x ensures x in before <==> x in other {
      var after := if e.action.Removed? then before - {e.path} else before + {e.path};
      assert x != e.path ==> (x in before <==> x in after);
    }
  }

  lemma EntriesReplay(r: Rendering, manifest: Manifest, pages: seq<Page>)
    requires Exportable(pages) && Sorts(r)
    ensures Replay(manifest.Keys, Entries(r, manifest, pages)) == Some(Paths(pages))
  {
    ExportablePaths(pages);
    NewStateHashes(pages);
    var removed := r.sorted(RemovedPaths(manifest, pages));
    PageEntriesReplay(manifest, pages);
    assert Members(removed) == manifest.Keys - Paths(pages);
    RemovalsReplay(r, manifest.Keys + Paths(pages), removed);
    ReplayConcat(manifest.Keys, PageEntries(manifest, pages), Image(RemovalOf(r), removed));
    assert manifest.Keys + Paths(pages) - Members(removed) == Paths(pages);
  }

  // ---- Any number of completed exports ----

  /** Page files, manifest and log all describe the given pages. */
  ghost predicate Synced(files: Bundle, pages: seq<Page>) {
    && Exportable(pages)
    && PagesExact(files, pages)
    && LoadManifest(files) == NewState(pages)
    && Replay({}, LoadLog(files).entries) == Some(Paths(pages))
  }

  lemma EmptyBundleIsSynced()
    ensures Synced(map[], [])
  {
    assert Image(Slug, []) == [];
    assert Paths([]) == {};
  }

  /** A bundle that holds exactly the pages its manifest was made from is ready for any others. */
  lemma MatchedIsReady(files: Bundle, prev: seq<Page>, pages: seq<Page>)
    requires Exportable(prev) && PagesExact(files, prev) && LoadManifest(files) == NewState(prev)
    ensures Ready(files, pages)
    ensures forall x :: x in LoadManifest(files) ==> !Reserved(x)
  {
    ExportablePaths(prev);
    NewStateHashes(prev);
    forall q | q in pages && Unchanged(LoadManifest(files), q) ensures PageWritten(files, q) {
      UnchangedMeansSame(prev, q);
      var p :| p in prev && PagePath(p) == PagePath(q) && p.rendered == q.rendered;
      assert PageWritten(files, p);
    }
  }

  lemma SyncedIsReady(files: Bundle, prev: seq<Page>, pages: seq<Page>)
    requires Synced(files, prev)
    ensures Ready(files, pages)
    ensures forall x :: x in LoadManifest(files) ==> !Reserved(x)
  {
    MatchedIsReady(files, prev, pages);
  }

  lemma ExportSyncs(r: Rendering, files: Bundle, prev: seq<Page>, pages: seq<Page>)
    requires Synced(files, prev) && Exportable(pages) && Sorts(r)
    ensures Synced(Exported(r, files, pages), pages)
  {
    SyncedIsReady(files, prev, pages);
    ExactWhenReady(r, files, pages);
    ExportedManifest(r, files, pages);
    ExportedLog(r, files, prev, pages);
    hide Exportable, PagesExact, Exported, NewState;
  }

  lemma SavedKeepsLog(r: Rendering, files: Bundle, pages: seq<Page>)
    requires Exportable(pages) && Sorts(r) && LOG !in LoadManifest(files)
    ensures LoadLog(Saved(r, files, pages)) == LoadLog(files)
  {
    SavedPages(r, files, pages);
    hide Saved;
    assert AgreeAt(Saved(r, files, pages), files, LOG);
  }

  /** The log that described the last run's pages describes this run's pages after it. */
  lemma ExportedLog(r: Rendering, files: Bundle, prev: seq<Page>, pages: seq<Page>)
    requires Synced(files, prev) && Exportable(pages) && Sorts(r)
    ensures Replay({}, LoadLog(Exported(r, files, pages)).entries) == Some(Paths(pages))
  {
    SyncedIsReady(files, prev, pages);
    ExportablePaths(prev);
    NewStateHashes(prev);
    SavedKeepsLog(r, files, pages);
    EntriesReplay(r, LoadManifest(files), pages);
    var log, entries := LoadLog(files).entries, Entries(r, LoadManifest(files), pages);
    ReplayConcat({}, log, entries);
    assert entries == [] ==> log + entries == log;
    ExportedIsSavedAndLogged(r, files, pages);
    hide Exportable, PagesExact, Exported, Saved, NewState, Replay, Entries, Sorts;
  }

  /** Every completed run of a bundle that started empty, each over its own pages. */
  function AfterRuns(r: Rendering, runs: seq<seq<Page>>): Bundle {
    if runs == [] then map[]
    else Exported(r, AfterRuns(r, runs[..|runs| - 1]), runs[|runs| - 1])
  }

  function LastRun(runs: seq<seq<Page>>): seq<Page> { if runs == [] then [] else runs[|runs| - 1] }

  lemma {:induction false} RunsStaySynced(r: Rendering, runs: seq<seq<Page>>)
    requires Sorts(r) && forall pages :: pages in runs ==> Exportable(pages)
    ensures Synced(AfterRuns(r, runs), LastRun(runs))
  {
    if runs == [] {
      EmptyBundleIsSynced();
    } else {
      var front := runs[..|runs| - 1];
      RunsStaySynced(r, front);
      ExportSyncs(r, AfterRuns(r, front), LastRun(front), runs[|runs| - 1]);
    }
  }

  lemma {:induction false} UnchangedPagesDoNothing(manifest: Manifest, pages: seq<Page>)
    requires forall p :: p in pages ==> Unchanged(manifest, p)
    ensures PageOps(manifest, pages) == [] && PageEntries(manifest, pages) == []
  {
    if pages == [] {
    } else {
      UnchangedPagesDoNothing(manifest, pages[..|pages| - 1]);
    }
  }

  lemma NonEmptyHasMember<T>(s: seq<T>)
    ensures s != [] ==> Members(s) != {}
  {
    if s != [] {
      assert s[0] in Members(s);
    }
  }

  /** Exporting pages the manifest already describes writes no page and logs nothing. */
  lemma RepeatLogsNothing(r: Rendering, manifest: Manifest, pages: seq<Page>)
    requires Exportable(pages) && Sorts(r) && manifest == NewState(pages)
    ensures PageOps(manifest, pages) == [] && Entries(r, manifest, pages) == []
    ensures RemovedPaths(manifest, pages) == {}
  {
    ExportablePaths(pages);
    NewStateHashes(pages);
    UnchangedPagesDoNothing(manifest, pages);
    var removed := r.sorted(RemovedPaths(manifest, pages));
    assert Members(removed) == {};
    NonEmptyHasMember(removed);
    assert Image(RemovalOf(r), removed) == [];
  }

  lemma ExportedManifest(r: Rendering, files: Bundle, pages: seq<Page>)
    requires Sorts(r)
    ensures LoadManifest(Exported(r, files, pages)) == NewState(pages)
  {
    SavedManifest(r, files, pages);
    ExportedIsSavedAndLogged(r, files, pages);
    ReservedNamesDiffer();
    var names := [MANIFEST, LOG, ROOT_INDEX, ENTITY_INDEX, SOURCE_INDEX];
    assert names[0] != names[1];
  }

  lemma IndexesOnce(r: Rendering, files: Bundle, pages: seq<Page>, log: File)
    ensures var done := WithIndexes(r, files, pages); WithIndexes(r, done, pages) == done
    ensures var done := WithIndexes(r, files, pages)[LOG := log]; WithIndexes(r, done, pages) == done
  {
    ReservedNamesDiffer();
    var names := [MANIFEST, LOG, ROOT_INDEX, ENTITY_INDEX, SOURCE_INDEX];
    assert forall i, j :: 0 <= i < j < 5 ==> names[i] != names[j];
    assert names[0] != names[1] && names[1] != names[2] && names[1] != names[3] && names[1] != names[4];
    assert names[0] != names[2] && names[0] != names[3] && names[0] != names[4];
    assert names[2] != names[3] && names[2] != names[4] && names[3] != names[4];
  }

  /** A second export of the same pages leaves the whole bundle as it was. */
  lemma RepeatChangesNothing(r: Rendering, files: Bundle, pages: seq<Page>)
    requires Exportable(pages) && Sorts(r)
    ensures var done := Exported(r, files, pages);
      Exported(r, done, pages) == done && PageOps(LoadManifest(done), pages) == []
  {
    var done, settled, log := Exported(r, files, pages), PagesSettled(r, files, pages), LoadLog(Saved(r, files, pages));
    ExportedManifest(r, files, pages);
    RepeatLogsNothing(r, LoadManifest(done), pages);
    assert PagesSettled(r, done, pages) == done by {
      assert ApplyAll(done, []) == done;
    }
    SavedInStages(r, files, pages);
    SavedInStages(r, done, pages);
    ExportedIsSavedAndLogged(r, files, pages);
    ExportedIsSavedAndLogged(r, done, pages);
    hide *;
    var entries := Entries(r, LoadManifest(files), pages);
    IndexesOnce(r, settled, pages, log.(entries := log.entries + entries));
  }

  // ---- Orphan deletion ----

  lemma {:induction false} PageOpsPaths(manifest: Manifest, pages: seq<Page>)
    ensures forall op :: op in PageOps(manifest, pages) ==>
      op.Write? && exists p :: p in pages && !Unchanged(manifest, p) && op == Write(PagePath(p), Text(p.rendered))
  {
    if pages == [] {
    } else {
      var n := |pages| - 1;
      PageOpsPaths(manifest, pages[..n]);
      assert pages == pages[..n] + [pages[n]];
    }
  }

  lemma DeleteOpsAreDeletions(r: Rendering, files: Bundle, pages: seq<Page>, x: string)
    requires Sorts(r)
    ensures Delete(x) in ExportOps(r, files, pages) <==> x in RemovedPaths(LoadManifest(files), pages)
  {
    var manifest := LoadManifest(files);
    var removed := r.sorted(RemovedPaths(manifest, pages));
    var deletes := Deletions(r, manifest, pages);
    PageOpsPaths(manifest, pages);
    assert Members(removed) == RemovedPaths(manifest, pages);
    assert Delete(x) in deletes <==> x in removed by {
      if x in removed {
        var i :| 0 <= i < |removed| && removed[i] == x;
        assert deletes[i] == Delete(x);
      }
    }
    var log := LogOps(LoadLog(Saved(r, files, pages)), Entries(r, manifest, pages));
    var save := Write(MANIFEST, ManifestFile(NewState(pages)));
    var writes, indexes := PageOps(manifest, pages), IndexOps(r, pages);
    assert ExportOps(r, files, pages) == writes + deletes + indexes + [save] + log;
    assert forall op :: op in indexes || op in log || op in writes ==> op.Write?;
    hide *;
  }

  /** Orphan deletion reaches exactly the withdrawn pages: never a current page, an index, the log or the manifest. */
  lemma DeletionsAreOrphans(r: Rendering, files: Bundle, prev: seq<Page>, pages: seq<Page>, x: string)
    requires Synced(files, prev) && Exportable(pages) && Sorts(r)
    ensures Delete(x) in ExportOps(r, files, pages) <==> x in Paths(prev) && x !in Paths(pages)
    ensures Delete(x) in ExportOps(r, files, pages) ==> !Reserved(x)
  {
    ExportablePaths(prev);
    ExportablePaths(pages);
    NewStateHashes(prev);
    NewStateHashes(pages);
    DeleteOpsAreDeletions(r, files, pages, x);
    hide ExportOps, Exportable, PagesExact, PathsIdentifyPages, Sorts;
  }
}
