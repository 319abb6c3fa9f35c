/** Exporting the published pages to a bundle of files: incremental page
    writes against a manifest of content hashes, orphan deletion, indexes,
    manifest and change log. Storage is a map from paths to files. */
module Export {
  import opened Sequences

  /** A published page with its rendered text. */
  datatype Page = Page(slug: string, isEntity: bool, title: string, rendered: string)

  /** A content hash, taken to be injective. */
  datatype Digest = Digest(content: string)

  datatype Action = Added | Modified | Removed

  datatype LogEntry = LogEntry(action: Action, path: string, title: string)

  /** A file as the export reads it back; anything else is text. */
  datatype File =
    | Text(content: string)
    | ManifestFile(hashes: map<string, Digest>)
    | LogFile(preamble: string, entries: seq<LogEntry>)

  type Bundle = map<string, File>
  type Manifest = map<string, Digest>

  const MANIFEST := ".rag-wiki-export-manifest.json"
  const LOG := "log.md"
  const ROOT_INDEX := "index.md"
  const ENTITY_INDEX := "entities/index.md"
  const SOURCE_INDEX := "sources/index.md"

  predicate Reserved(path: string) {
    path == MANIFEST || path == LOG || path == ROOT_INDEX || path == ENTITY_INDEX || path == SOURCE_INDEX
  }

  function PagePath(p: Page): string { (if p.isEntity then "entities" else "sources") + "/" + p.slug + ".md" }

  function Slug(p: Page): string { p.slug }

  /** The table the export reads: slugs are unique and none is a reserved name. */
  predicate Exportable(pages: seq<Page>) {
    Distinct(Image(Slug, pages)) && forall p | p in pages :: p.slug != "index"
  }

  /** The bundle's parts the export does not take from storage: index texts, removal order, titles of removed pages. */
  datatype Rendering = Rendering(
    index: (string, seq<Page>) -> string,
    sorted: set<string> -> seq<string>,
    stem: string -> string)

  ghost predicate Sorts(r: Rendering) {
    forall paths :: Members(r.sorted(paths)) == paths && Distinct(r.sorted(paths))
  }

  // ---- The intended effect, as storage operations ----

  datatype Op = Write(path: string, file: File) | Delete(path: string)

  function ApplyOp(files: Bundle, op: Op): Bundle {
    match op
    case Write(path, file) => files[path := file]
    case Delete(path) => files - {path}
  }

  function ApplyAll(files: Bundle, ops: seq<Op>): Bundle {
    if ops == [] then files else ApplyOp(ApplyAll(files, ops[..|ops| - 1]), ops[|ops| - 1])
  }

  /** A missing or unreadable manifest counts as empty. */
  function LoadManifest(files: Bundle): Manifest {
    if MANIFEST in files && files[MANIFEST].ManifestFile? then files[MANIFEST].hashes else map[]
  }

  function LoadLog(files: Bundle): (log: File)
    ensures log.LogFile?
  {
    if LOG !in files then LogFile("", [])
    else match files[LOG]
      case LogFile(_, _) => files[LOG]
      case Text(content) => LogFile(content, [])
      case ManifestFile(_) => LogFile("", [])
  }

  function PageHash(p: Page): Digest { Digest(p.rendered) }

  predicate Unchanged(manifest: Manifest, p: Page) {
    PagePath(p) in manifest && manifest[PagePath(p)] == PageHash(p)
  }

  function PageOps(manifest: Manifest, pages: seq<Page>): seq<Op> {
    if pages == [] then []
    else
      var p := pages[|pages| - 1];
      var front := PageOps(manifest, pages[..|pages| - 1]);
      front + if Unchanged(manifest, p) then [] else [Write(PagePath(p), Text(p.rendered))]
  }

  function PageEntries(manifest: Manifest, pages: seq<Page>): seq<LogEntry> {
    if pages == [] then []
    else
      var p := pages[|pages| - 1];
      PageEntries(manifest, pages[..|pages| - 1])
        + if Unchanged(manifest, p) then []
          else [LogEntry(if PagePath(p) in manifest then Modified else Added, PagePath(p), p.title)]
  }

  function NewState(pages: seq<Page>): Manifest {
    if pages == [] then map[]
    else NewState(pages[..|pages| - 1])[PagePath(pages[|pages| - 1]) := PageHash(pages[|pages| - 1])]
  }

  function RemovedPaths(manifest: Manifest, pages: seq<Page>): set<string> { manifest.Keys - NewState(pages).Keys }

  function DeleteOf(path: string): Op { Delete(path) }

  function RemovalOf(r: Rendering): string -> LogEntry { (path: string) => LogEntry(Removed, path, r.stem(path)) }

  function Deletions(r: Rendering, manifest: Manifest, pages: seq<Page>): seq<Op> {
    Image(DeleteOf, r.sorted(RemovedPaths(manifest, pages)))
  }

  function IndexOps(r: Rendering, pages: seq<Page>): seq<Op> {
    [Write(ROOT_INDEX, Text(r.index(ROOT_INDEX, pages))),
     Write(ENTITY_INDEX, Text(r.index(ENTITY_INDEX, pages))),
     Write(SOURCE_INDEX, Text(r.index(SOURCE_INDEX, pages)))]
  }

  function Entries(r: Rendering, manifest: Manifest, pages: seq<Page>): seq<LogEntry> {
    PageEntries(manifest, pages) + Image(RemovalOf(r), r.sorted(RemovedPaths(manifest, pages)))
  }

  /** Everything an export does before it saves the manifest. */
  function OpsBeforeSave(r: Rendering, files: Bundle, pages: seq<Page>): seq<Op> {
    var manifest := LoadManifest(files);
    PageOps(manifest, pages) + Deletions(r, manifest, pages) + IndexOps(r, pages)
  }

  function OpsUpToSave(r: Rendering, files: Bundle, pages: seq<Page>): seq<Op> {
    OpsBeforeSave(r, files, pages) + [Write(MANIFEST, ManifestFile(NewState(pages)))]
  }

  /** The log flush: nothing without entries, else the log on storage by then, extended. */
  function LogOps(log: File, entries: seq<LogEntry>): seq<Op>
    requires log.LogFile?
  {
    if entries == [] then [] else [Write(LOG, log.(entries := log.entries + entries))]
  }

  function ExportOps(r: Rendering, files: Bundle, pages: seq<Page>): seq<Op> {
    var ops := OpsUpToSave(r, files, pages);
    ops + LogOps(LoadLog(ApplyAll(files, ops)), Entries(r, LoadManifest(files), pages))
  }

  function Exported(r: Rendering, files: Bundle, pages: seq<Page>): Bundle {
    ApplyAll(files, ExportOps(r, files, pages))
  }

  lemma ApplyNext(files: Bundle, ops: seq<Op>, op: Op)
    ensures ApplyAll(files, ops + [op]) == ApplyOp(ApplyAll(files, ops), op)
  {
    assert (ops + [op])[..|ops|] == ops;
  }

  // ---- The export itself ----

  class Storage {
    var files: Bundle

    constructor ()
      ensures files == map[]
    {
      files := map[];
    }

    method WriteFile(path: string, file: File)
      modifies this
      ensures files == ApplyOp(old(files), Write(path, file))
    {
      files := files[path := file];
    }

    /** Deleting a missing file is silently skipped. */
    method DeleteFile(path: string)
      modifies this
      ensures files == ApplyOp(old(files), Delete(path))
    {
      files := files - {path};
    }
  }

  lemma NoPagesDone(files: Bundle, manifest: Manifest)
    ensures PageOps(manifest, []) == [] && PageEntries(manifest, []) == [] && NewState([]) == map[]
    ensures ApplyAll(files, []) == files
  {
  }

  lemma PageLoopNext(manifest: Manifest, pages: seq<Page>, i: nat)
    requires i < |pages|
    ensures NewState(pages[..i + 1]) == NewState(pages[..i])[PagePath(pages[i]) := PageHash(pages[i])]
    ensures Unchanged(manifest, pages[i]) ==>
      && PageOps(manifest, pages[..i + 1]) == PageOps(manifest, pages[..i])
      && PageEntries(manifest, pages[..i + 1]) == PageEntries(manifest, pages[..i])
    ensures !Unchanged(manifest, pages[i]) ==>
      var p := pages[i];
      var kind := if PagePath(p) in manifest then Modified else Added;
      && PageOps(manifest, pages[..i + 1]) == PageOps(manifest, pages[..i]) + [Write(PagePath(p), Text(p.rendered))]
      && PageEntries(manifest, pages[..i + 1])
         == PageEntries(manifest, pages[..i]) + [LogEntry(kind, PagePath(p), p.title)]
  {
    hide PagePath, Unchanged;
    assert pages[..i + 1][..i] == pages[..i] && pages[..i + 1][i] == pages[i];
  }

  /** The page loop: write what changed, remember the new hashes and log entries. */
  method ExportPages(storage: Storage, manifest: Manifest, pages: seq<Page>)
    returns (newState: Manifest, entries: seq<LogEntry>, changed: nat)
    modifies storage
    ensures storage.files == ApplyAll(old(storage.files), PageOps(manifest, pages))
    ensures newState == NewState(pages) && entries == PageEntries(manifest, pages)
    ensures changed == |PageOps(manifest, pages)|
  {
    NoPagesDone(storage.files, manifest);
    hide PageOps, PageEntries, NewState, PagePath, Unchanged, ApplyAll;
    newState, entries, changed := map[], [], 0;
    var i := 0;
    while i < |pages|
      invariant 0 <= i <= |pages|
      invariant storage.files == ApplyAll(old(storage.files), PageOps(manifest, pages[..i]))
      invariant newState == NewState(pages[..i]) && entries == PageEntries(manifest, pages[..i])
      invariant changed == |PageOps(manifest, pages[..i])|
    {
      var p := pages[i];
      PageLoopNext(manifest, pages, i);
      newState := newState[PagePath(p) := PageHash(p)];
      ghost var ops := PageOps(manifest, pages[..i]);
      if !Unchanged(manifest, p) {
        ApplyNext(old(storage.files), ops, Write(PagePath(p), Text(p.rendered)));
        storage.WriteFile(PagePath(p), Text(p.rendered));
        entries := entries + [LogEntry(if PagePath(p) in manifest then Modified else Added, PagePath(p), p.title)];
        changed := changed + 1;
      }
      i := i + 1;
    }
    assert pages[..i] == pages;
  }

  lemma NothingDeleted(files: Bundle)
    ensures ApplyAll(files, Image(DeleteOf, [])) == files
  {
  }

  /** _delete_orphan_pages */
  method DeleteOrphans(storage: Storage, removed: seq<string>)
    modifies storage
    ensures storage.files == ApplyAll(old(storage.files), Image(DeleteOf, removed))
  {
    NothingDeleted(storage.files);
    hide ApplyAll, ApplyOp, Image;
    var i := 0;
    while i < |removed|
      invariant 0 <= i <= |removed|
      invariant storage.files == ApplyAll(old(storage.files), Image(DeleteOf, removed[..i]))
    {
      assert removed[..i + 1] == removed[..i] + [removed[i]];
      ImageAppend(DeleteOf, removed[..i], removed[i]);
      ApplyNext(old(storage.files), Image(DeleteOf, removed[..i]), Delete(removed[i]));
      storage.DeleteFile(removed[i]);
      i := i + 1;
    }
    assert removed[..i] == removed;
  }

  /** export_bundle */
  method ExportBundle(storage: Storage, r: Rendering, pages: seq<Page>) returns (changed: nat)
    modifies storage
    ensures storage.files == Exported(r, old(storage.files), pages)
    ensures changed == |PageOps(LoadManifest(old(storage.files)), pages)|
  {
    ghost var start := storage.files;
    var manifest := LoadManifest(storage.files);
    var newState, entries;
    newState, entries, changed := ExportPages(storage, manifest, pages);
    var removed := r.sorted(manifest.Keys - newState.Keys);
    entries := entries + Image(RemovalOf(r), removed);
    DeleteOrphans(storage, removed);
    ApplyConcat(start, PageOps(manifest, pages), Deletions(r, manifest, pages));
    ghost var done := storage.files;
    storage.WriteFile(ROOT_INDEX, Text(r.index(ROOT_INDEX, pages)));
    storage.WriteFile(ENTITY_INDEX, Text(r.index(ENTITY_INDEX, pages)));
    storage.WriteFile(SOURCE_INDEX, Text(r.index(SOURCE_INDEX, pages)));
    IndexesWritten(done, r, pages);
    ApplyConcat(start, PageOps(manifest, pages) + Deletions(r, manifest, pages), IndexOps(r, pages));
    storage.WriteFile(MANIFEST, ManifestFile(newState));
    ApplyNext(start, OpsBeforeSave(r, start, pages), Write(MANIFEST, ManifestFile(newState)));
    FlushLog(storage, entries);
    FlushIsLast(start, r, pages);
  }

  /** _LogWriter.flush */
  method FlushLog(storage: Storage, entries: seq<LogEntry>)
    modifies storage
    ensures storage.files == ApplyAll(old(storage.files), LogOps(LoadLog(old(storage.files)), entries))
  {
    if entries != [] {
      var log := LoadLog(storage.files);
      ApplyNext(storage.files, [], Write(LOG, log.(entries := log.entries + entries)));
      assert [] + LogOps(log, entries) == LogOps(log, entries);
      storage.WriteFile(LOG, log.(entries := log.entries + entries));
    }
  }

  lemma FlushIsLast(files: Bundle, r: Rendering, pages: seq<Page>)
    ensures var saved := ApplyAll(files, OpsUpToSave(r, files, pages));
      Exported(r, files, pages) == ApplyAll(saved, LogOps(LoadLog(saved), Entries(r, LoadManifest(files), pages)))
  {
    var ops := OpsUpToSave(r, files, pages);
    ApplyConcat(files, ops, LogOps(LoadLog(ApplyAll(files, ops)), Entries(r, LoadManifest(files), pages)));
  }

  lemma {:induction false} ApplyConcat(files: Bundle, a: seq<Op>, b: seq<Op>)
    ensures ApplyAll(files, a + b) == ApplyAll(ApplyAll(files, a), b)
  {
    if b == [] {
      assert a + b == a;
    } else {
      var n := |b| - 1;
      assert a + b == (a + b[..n]) + [b[n]];
      ApplyNext(files, a + b[..n], b[n]);
      ApplyConcat(files, a, b[..n]);
    }
  }

  lemma IndexesWritten(files: Bundle, r: Rendering, pages: seq<Page>)
    ensures ApplyAll(files, IndexOps(r, pages))
      == files[ROOT_INDEX := Text(r.index(ROOT_INDEX, pages))]
              [ENTITY_INDEX := Text(r.index(ENTITY_INDEX, pages))]
              [SOURCE_INDEX := Text(r.index(SOURCE_INDEX, pages))]
  {
    var ops := IndexOps(r, pages);
    assert ops == [] + [ops[0]] + [ops[1]] + [ops[2]];
    ApplyNext(files, [] + [ops[0]] + [ops[1]], ops[2]);
    ApplyNext(files, [] + [ops[0]], ops[1]);
    ApplyNext(files, [], ops[0]);
  }
}
