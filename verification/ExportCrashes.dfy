/** Exports that die on the way: what a later run repairs, exactly when, and
    what a crash between the manifest and the log leaves behind. */
module ExportCrashes {
  import opened Sequences
  import opened Export
  import opened ExportProperties

  /** The bundle when an export stops after its first k storage operations. */
  function Interrupted(r: Rendering, files: Bundle, pages: seq<Page>, k: nat): Bundle
    requires k <= |OpsBeforeSave(r, files, pages)|
  {
    ApplyAll(files, OpsBeforeSave(r, files, pages)[..k])
  }

  /** What an export can touch before it saves the manifest. */
  lemma OpsBeforeSavePaths(r: Rendering, files: Bundle, pages: seq<Page>, op: Op)
    requires Sorts(r) && op in OpsBeforeSave(r, files, pages)
    ensures op.path !in {ROOT_INDEX, ENTITY_INDEX, SOURCE_INDEX} ==>
      || (exists p :: p in pages && !Unchanged(LoadManifest(files), p) && op == Write(PagePath(p), Text(p.rendered)))
      || (op == Delete(op.path) && op.path in RemovedPaths(LoadManifest(files), pages))
  {
    var manifest := LoadManifest(files);
    PageOpsPaths(manifest, pages);
    var removed := r.sorted(RemovedPaths(manifest, pages));
    assert op in PageOps(manifest, pages) || op in Deletions(r, manifest, pages) || op in IndexOps(r, pages);
    if op in Deletions(r, manifest, pages) {
      var i :| 0 <= i < |removed| && Deletions(r, manifest, pages)[i] == op;
      assert removed[i] in Members(removed);
    }
  }

  lemma InterruptionKeepsManifest(r: Rendering, files: Bundle, pages: seq<Page>, k: nat)
    requires Exportable(pages) && Sorts(r) && k <= |OpsBeforeSave(r, files, pages)|
    requires forall x :: x in LoadManifest(files) ==> !Reserved(x)
    ensures LoadManifest(Interrupted(r, files, pages, k)) == LoadManifest(files)
  {
    var ops := OpsBeforeSave(r, files, pages);
    ExportablePaths(pages);
    ReservedNamesDiffer();
    var names := [MANIFEST, LOG, ROOT_INDEX, ENTITY_INDEX, SOURCE_INDEX];
    assert names[0] !in {names[2], names[3], names[4]};
    forall i | 0 <= i < |ops| ensures ops[i].path != MANIFEST {
      OpsBeforeSavePaths(r, files, pages, ops[i]);
      if p :| p in pages && ops[i] == Write(PagePath(p), Text(p.rendered)) {
        assert PagePath(p) in Paths(pages);
      }
    }
    assert forall i :: 0 <= i < k ==> ops[..k][i] == ops[i];
    OpsAreOverwrites(files, files, ops[..k], MANIFEST);
  }

  /** A run cut short before its manifest save, then a run over the same pages: as if never interrupted. */
  lemma CrashThenSamePages(r: Rendering, files: Bundle, pages: seq<Page>, k: nat)
    requires Exportable(pages) && Sorts(r) && k <= |OpsBeforeSave(r, files, pages)|
    requires forall x :: x in LoadManifest(files) ==> !Reserved(x)
    ensures Exported(r, Interrupted(r, files, pages, k), pages) == Exported(r, files, pages)
  {
    InterruptionKeepsManifest(r, files, pages, k);
    var partial := Interrupted(r, files, pages, k);
    var ops := OpsUpToSave(r, files, pages);
    assert ops[..k] == OpsBeforeSave(r, files, pages)[..k];
    assert OpsUpToSave(r, partial, pages) == ops;
    RestartIsHarmless(files, ops, k);
    ExportedIsSavedAndLogged(r, files, pages);
    ExportedIsSavedAndLogged(r, partial, pages);
  }

  /** The page paths that interrupted runs had touched: those new to the manifest must be pages of the
      next run, and no page of the next run may be back at the content the manifest records. */
  ghost predicate Recoverable(manifest: Manifest, done: seq<Op>, next: seq<Page>) {
    forall x :: Touched(done, x) && !Reserved(x) ==>
      && (x !in manifest ==> x in Paths(next))
      && (forall q :: q in next && PagePath(q) == x ==> !Unchanged(manifest, q))
  }

  // ---- Any number of interrupted runs ----

  /** A run over some pages that stops after a number of storage operations, or before it saves the manifest. */
  datatype Attempt = Attempt(pages: seq<Page>, stop: nat)

  function AttemptOps(r: Rendering, files: Bundle, a: Attempt): seq<Op> {
    var ops := OpsBeforeSave(r, files, a.pages);
    if a.stop <= |ops| then ops[..a.stop] else ops
  }

  function AfterAttempts(r: Rendering, files: Bundle, attempts: seq<Attempt>): Bundle {
    if attempts == [] then files
    else
      var before := AfterAttempts(r, files, attempts[..|attempts| - 1]);
      ApplyAll(before, AttemptOps(r, before, attempts[|attempts| - 1]))
  }

  /** Every operation of the attempts, as each would run on the first bundle. */
  function AllOps(r: Rendering, files: Bundle, attempts: seq<Attempt>): seq<Op> {
    if attempts == [] then []
    else AllOps(r, files, attempts[..|attempts| - 1]) + AttemptOps(r, files, attempts[|attempts| - 1])
  }

  /** What an unfinished run can do: write an index, write a changed page, delete what the manifest knows. */
  ghost predicate UnfinishedOp(manifest: Manifest, op: Op) {
    || op.path in {ROOT_INDEX, ENTITY_INDEX, SOURCE_INDEX}
    || (exists p: Page :: p.slug != "index" && !Unchanged(manifest, p) && op == Write(PagePath(p), Text(p.rendered)))
    || (op == Delete(op.path) && op.path in manifest)
  }

  lemma AttemptOpsUnfinished(r: Rendering, files: Bundle, a: Attempt)
    requires Exportable(a.pages) && Sorts(r)
    ensures forall op :: op in AttemptOps(r, files, a) ==> UnfinishedOp(LoadManifest(files), op)
  {
    var ops := OpsBeforeSave(r, files, a.pages);
    forall op | op in AttemptOps(r, files, a) ensures UnfinishedOp(LoadManifest(files), op) {
      assert op in ops;
      OpsBeforeSavePaths(r, files, a.pages, op);
      hide OpsBeforeSave, Unchanged, PagePath, LoadManifest;
    }
  }

  lemma UnfinishedOpPath(manifest: Manifest, op: Op)
    requires UnfinishedOp(manifest, op) && forall x :: x in manifest ==> !Reserved(x)
    ensures op.path != MANIFEST
  {
    ReservedNamesDiffer();
    var names := [MANIFEST, LOG, ROOT_INDEX, ENTITY_INDEX, SOURCE_INDEX];
    assert names[0] !in {names[2], names[3], names[4]};
    if p: Page :| p.slug != "index" && !Unchanged(manifest, p) && op == Write(PagePath(p), Text(p.rendered)) {
      PagePathIsNotReserved(p);
    }
    hide PagePath;
    assert Reserved(MANIFEST);
  }

  /** Unfinished operations leave the manifest alone. */
  lemma UnfinishedKeepsManifest(files: Bundle, ops: seq<Op>)
    requires forall x :: x in LoadManifest(files) ==> !Reserved(x)
    requires forall op :: op in ops ==> UnfinishedOp(LoadManifest(files), op)
    ensures LoadManifest(ApplyAll(files, ops)) == LoadManifest(files)
  {
    hide UnfinishedOp, Reserved;
    forall i | 0 <= i < |ops| ensures ops[i].path != MANIFEST {
      assert ops[i] in ops;
      UnfinishedOpPath(LoadManifest(files), ops[i]);
    }
    OpsAreOverwrites(files, files, ops, MANIFEST);
  }

  lemma SameAttemptOps(r: Rendering, files: Bundle, other: Bundle, a: Attempt)
    requires LoadManifest(other) == LoadManifest(files)
    ensures AttemptOps(r, other, a) == AttemptOps(r, files, a)
  {
    hide LoadManifest;
  }

  /** The attempts run one after the other amount to all their operations on the first bundle. */
  lemma {:induction false} AttemptsAreTheirOps(r: Rendering, files: Bundle, attempts: seq<Attempt>)
    requires Sorts(r) && forall a :: a in attempts ==> Exportable(a.pages)
    requires forall x :: x in LoadManifest(files) ==> !Reserved(x)
    ensures AfterAttempts(r, files, attempts) == ApplyAll(files, AllOps(r, files, attempts))
    ensures LoadManifest(AfterAttempts(r, files, attempts)) == LoadManifest(files)
    ensures forall op :: op in AllOps(r, files, attempts) ==> UnfinishedOp(LoadManifest(files), op)
  {
    hide LoadManifest, UnfinishedOp, Exportable, Sorts, Reserved, AttemptOps, ApplyAll;
    if attempts == [] {
      NothingApplied(files);
    } else {
      var n := |attempts| - 1;
      var front, last := attempts[..n], attempts[n];
      assert attempts == front + [last] && last in attempts;
      AttemptsAreTheirOps(r, files, front);
      var before := AfterAttempts(r, files, front);
      SameAttemptOps(r, files, before, last);
      AttemptOpsUnfinished(r, files, last);
      ApplyConcat(files, AllOps(r, files, front), AttemptOps(r, files, last));
      UnfinishedKeepsManifest(files, AllOps(r, files, attempts));
    }
  }

  lemma NothingApplied(files: Bundle)
    ensures ApplyAll(files, []) == files
  {
  }

  /** Any number of runs cut short, each over its own pages, and then a run over other pages: it leaves the right
      pages exactly when the paths they touched are recoverable. */
  lemma CrashesThenOtherPages(r: Rendering, files: Bundle, prev: seq<Page>, attempts: seq<Attempt>, next: seq<Page>)
    requires Synced(files, prev) && Exportable(next) && Sorts(r)
    requires forall a :: a in attempts ==> Exportable(a.pages)
    ensures PagesExact(Exported(r, AfterAttempts(r, files, attempts), next), next)
       <==> Recoverable(LoadManifest(files), AllOps(r, files, attempts), next)
  {
    hide *;
    var done, manifest, partial := AllOps(r, files, attempts), LoadManifest(files), AfterAttempts(r, files, attempts);
    SyncedIsReady(files, prev, next);
    AttemptsAreTheirOps(r, files, attempts);
    ExactWhenReady(r, partial, next);
    forall x | !Reserved(x) ensures
      && (Touched(done, x) ==> TouchedState(manifest, partial, x))
      && (!Touched(done, x) ==> AgreeAt(partial, files, x))
    {
      TouchedBefore(files, manifest, done, x);
    }
    PathsAreFree(next);
    ReadyAfterTouches(files, partial, manifest, done, next);
  }

  lemma PathsAreFree(pages: seq<Page>)
    requires Exportable(pages)
    ensures forall q :: q in pages ==> !Reserved(PagePath(q))
  {
    ExportablePaths(pages);
    hide Reserved, PagePath, Exportable, PathsIdentifyPages;
  }

  /** One run cut short after k operations. */
  lemma CrashThenOtherPages(r: Rendering, files: Bundle, prev: seq<Page>, pages: seq<Page>, k: nat, next: seq<Page>)
    requires Synced(files, prev) && Exportable(pages) && Exportable(next) && Sorts(r)
    requires k <= |OpsBeforeSave(r, files, pages)|
    ensures PagesExact(Exported(r, Interrupted(r, files, pages, k), next), next)
       <==> Recoverable(LoadManifest(files), OpsBeforeSave(r, files, pages)[..k], next)
  {
    CrashesThenOtherPages(r, files, prev, [Attempt(pages, k)], next);
    OneAttempt(r, files, pages, k);
  }

  lemma OneAttempt(r: Rendering, files: Bundle, pages: seq<Page>, k: nat)
    requires k <= |OpsBeforeSave(r, files, pages)|
    ensures AfterAttempts(r, files, [Attempt(pages, k)]) == Interrupted(r, files, pages, k)
    ensures AllOps(r, files, [Attempt(pages, k)]) == OpsBeforeSave(r, files, pages)[..k]
  {
    hide OpsBeforeSave, ApplyAll;
    assert [Attempt(pages, k)][..0] == [];
  }

  /** A touched path holds the new text of a changed page, or lost its file as an orphan. */
  ghost predicate TouchedState(manifest: Manifest, partial: Bundle, x: string) {
    || (exists p: Page :: PagePath(p) == x && !Unchanged(manifest, p) && PageWritten(partial, p))
    || (x in manifest && x !in partial)
  }

  lemma {:induction false} LastTouchDecides(files: Bundle, ops: seq<Op>, x: string) returns (i: nat)
    requires Touched(ops, x)
    ensures i < |ops| && ops[i].path == x
    ensures ops[i].Write? ==> x in ApplyAll(files, ops) && ApplyAll(files, ops)[x] == ops[i].file
    ensures ops[i].Delete? ==> x !in ApplyAll(files, ops)
  {
    var n := |ops| - 1;
    if ops[n].path == x {
      i := n;
    } else {
      var j :| 0 <= j < |ops| && ops[j].path == x;
      assert ops[..n][j] == ops[j];
      i := LastTouchDecides(files, ops[..n], x);
    }
  }

  lemma TouchedBefore(files: Bundle, manifest: Manifest, ops: seq<Op>, x: string)
    requires !Reserved(x) && forall op :: op in ops ==> UnfinishedOp(manifest, op)
    ensures Touched(ops, x) ==> TouchedState(manifest, ApplyAll(files, ops), x)
    ensures !Touched(ops, x) ==> AgreeAt(ApplyAll(files, ops), files, x)
  {
    OpsAreOverwrites(files, files, ops, x);
    if Touched(ops, x) {
      var i := LastTouchDecides(files, ops, x);
      assert ops[i] in ops && UnfinishedOp(manifest, ops[i]);
      hide ApplyAll, PagePath, Unchanged;
    }
  }

  lemma ReadyAfterTouches(files: Bundle, partial: Bundle, manifest: Manifest, done: seq<Op>, next: seq<Page>)
    requires LoadManifest(files) == manifest && LoadManifest(partial) == manifest
    requires Ready(files, next)
    requires forall q :: q in next ==> !Reserved(PagePath(q))
    requires forall x :: Touched(done, x) && !Reserved(x) ==> TouchedState(manifest, partial, x)
    requires forall x :: !Touched(done, x) && !Reserved(x) ==> AgreeAt(partial, files, x)
    ensures Ready(partial, next) <==> Recoverable(manifest, done, next)
  {
    hide Touched, PagePath, Reserved;
    if Recoverable(manifest, done, next) {
      forall q | q in next && Unchanged(manifest, q) ensures PageWritten(partial, q) {
        assert !Touched(done, PagePath(q));
        assert PageWritten(files, q) && AgreeAt(partial, files, PagePath(q));
      }
      forall x | x in partial && !Reserved(x) && x !in Paths(next) ensures x in manifest {
        if !Touched(done, x) {
          assert AgreeAt(partial, files, x);
        }
      }
    }
    if Ready(partial, next) {
      assert forall q :: q in next && Unchanged(manifest, q) ==> PageWritten(partial, q);
      forall x | Touched(done, x) && !Reserved(x) ensures
        && (x !in manifest ==> x in Paths(next))
        && (forall q :: q in next && PagePath(q) == x ==> !Unchanged(manifest, q))
      {
        assert TouchedState(manifest, partial, x);
      }
    }
  }

  /** The smallest losing run: a new page is written, the run dies, the page is withdrawn. Its file stays for good. */
  lemma WithdrawnPageStays(r: Rendering, p: Page)
    requires Sorts(r) && p.slug != "index"
    ensures |OpsBeforeSave(r, map[], [p])| >= 1
    ensures var partial := Interrupted(r, map[], [p], 1);
      && !PagesExact(Exported(r, partial, []), [])
      && PagePath(p) in Exported(r, partial, [])
  {
    EmptyBundleIsSynced();
    PagePathIsNotReserved(p);
    var ops, write := OpsBeforeSave(r, map[], [p]), Write(PagePath(p), Text(p.rendered));
    assert Exportable([p]);
    assert [p][..0] == [];
    assert PageOps(map[], []) == [];
    assert PageOps(map[], [p]) == [write];
    assert ops[..1] == [write];
    assert Touched(ops[..1], PagePath(p)) by { assert ops[..1][0].path == PagePath(p); }
    assert [] + [write] == [write];
    ApplyNext(map[], [], write);
    var partial := Interrupted(r, map[], [p], 1);
    assert PagePath(p) !in Paths([]);
    CrashThenOtherPages(r, map[], [], [p], 1, []);
    SavedPages(r, partial, []);
    ExportedIsSavedAndLogged(r, partial, []);
    assert AgreeAt(Saved(r, partial, []), partial, PagePath(p));
  }

  lemma SavedIsExact(r: Rendering, files: Bundle, pages: seq<Page>)
    requires Exportable(pages) && Sorts(r) && Ready(files, pages)
    ensures PagesExact(Saved(r, files, pages), pages)
  {
    ExportablePaths(pages);
    ExactWhenReady(r, files, pages);
    ExportedIsSavedAndLogged(r, files, pages);
    var saved, done := Saved(r, files, pages), Exported(r, files, pages);
    assert forall x :: !Reserved(x) ==> AgreeAt(done, saved, x);
    forall p | p in pages ensures PageWritten(saved, p) {
      assert PageWritten(done, p) && AgreeAt(done, saved, PagePath(p));
    }
    forall x | x in saved && !Reserved(x) ensures x in Paths(pages) {
      assert AgreeAt(done, saved, x);
    }
  }

  /** A run that dies between the manifest save and the log flush, then a run over any pages: pages and manifest
      are right, and the log replays to the manifest's paths exactly when the
      lost run neither added nor removed a page. */
  lemma LostFlush(r: Rendering, files: Bundle, prev: seq<Page>, pages: seq<Page>, next: seq<Page>)
    requires Synced(files, prev) && Exportable(pages) && Exportable(next) && Sorts(r)
    ensures var after := Exported(r, Saved(r, files, pages), next);
      && PagesExact(after, next) && LoadManifest(after) == NewState(next)
      && (Replay({}, LoadLog(after).entries) == Some(Paths(next)) <==> Paths(prev) == Paths(pages))
  {
    SyncedIsReady(files, prev, pages);
    var saved := Saved(r, files, pages);
    SavedManifest(r, files, pages);
    SavedIsExact(r, files, pages);
    MatchedIsReady(saved, pages, next);
    ExactWhenReady(r, saved, next);
    ExportedManifest(r, saved, next);
    LostFlushLog(r, files, prev, pages, next);
    hide *;
  }

  lemma LostFlushLog(r: Rendering, files: Bundle, prev: seq<Page>, pages: seq<Page>, next: seq<Page>)
    requires Synced(files, prev) && Exportable(pages) && Exportable(next) && Sorts(r)
    requires LoadManifest(Saved(r, files, pages)) == NewState(pages)
    ensures Replay({}, LoadLog(Exported(r, Saved(r, files, pages), next)).entries) == Some(Paths(next))
       <==> Paths(prev) == Paths(pages)
  {
    var saved, log, entries := Saved(r, files, pages), LoadLog(files).entries, Entries(r, NewState(pages), next);
    LogAfterSaved(r, files, prev, pages, next);
    SyncedLog(files, prev);
    ExportablePaths(pages);
    NewStateHashes(pages);
    EntriesReplay(r, NewState(pages), next);
    hide *;
    ReplayConcat({}, log, entries);
    if Replay(Paths(prev), entries) == Some(Paths(next)) {
      ReplayIsInjective(Paths(prev), Paths(pages), entries);
    }
  }

  lemma SyncedLog(files: Bundle, prev: seq<Page>)
    requires Synced(files, prev)
    ensures Replay({}, LoadLog(files).entries) == Some(Paths(prev))
  {
  }

  /** The log after the second run is the log before the first, and the second run's entries. */
  lemma LogAfterSaved(r: Rendering, files: Bundle, prev: seq<Page>, pages: seq<Page>, next: seq<Page>)
    requires Synced(files, prev) && Exportable(pages) && Exportable(next) && Sorts(r)
    requires LoadManifest(Saved(r, files, pages)) == NewState(pages)
    ensures LoadLog(Exported(r, Saved(r, files, pages), next)).entries
      == LoadLog(files).entries + Entries(r, NewState(pages), next)
  {
    hide *;
    var saved := Saved(r, files, pages);
    SyncedIsReady(files, prev, pages);
    LogIsReserved();
    SavedKeepsLog(r, files, pages);
    NoLogInNewState(pages);
    SavedKeepsLog(r, saved, next);
    LogGrows(r, saved, next);
  }

  lemma NoLogInNewState(pages: seq<Page>)
    requires Exportable(pages)
    ensures LOG !in NewState(pages)
  {
    ExportablePaths(pages);
    NewStateHashes(pages);
    LogIsReserved();
    hide NewState, Exportable, PathsIdentifyPages, Reserved, PagePath;
  }

  /** A run appends its entries to the log it finds once everything else is saved. */
  lemma LogGrows(r: Rendering, files: Bundle, pages: seq<Page>)
    ensures LoadLog(Exported(r, files, pages)).entries
      == LoadLog(Saved(r, files, pages)).entries + Entries(r, LoadManifest(files), pages)
  {
    var entries := Entries(r, LoadManifest(files), pages);
    ExportedIsSavedAndLogged(r, files, pages);
    hide Exported, Saved, Entries;
    assert entries == [] ==>
      LoadLog(Saved(r, files, pages)).entries + entries == LoadLog(Saved(r, files, pages)).entries;
  }

  lemma LogIsReserved()
    ensures Reserved(LOG)
  {
  }
}
