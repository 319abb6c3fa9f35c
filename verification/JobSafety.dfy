/** What holds in every state of every run of the queue, with crashes,
    failures, releases and outside enqueues at any point. */
module JobSafety {
  import opened Sequences
  import opened JobProtocol

  // ---- The job state machine ----

  ghost predicate JobOk(job: Job) {
    && (job.status.Failed? <==> job.attempts == job.maxRetries + 1)
    && job.attempts <= job.maxRetries + 1
    && (job.status.Pending? ==> job.worker == None)
    && (job.status.Processing? ==> !job.kind.Ingest? && !job.kind.UnknownKind?)
  }

  ghost predicate JobsOk(jobs: seq<Job>) { forall i :: 0 <= i < |jobs| ==> JobOk(jobs[i]) }

  /** The row of the held job, as committed. */
  ghost predicate HoldingOk(st: State) {
    match st.holding
    case Idle => true
    case Running(j) => j < |st.jobs| && st.jobs[j].status.Pending?
    case Synthesizing(j, e, merged) =>
      && j < |st.jobs| && st.jobs[j].status.Processing?
      && st.jobs[j].kind.SynthesizeEntity? && st.jobs[j].kind.target == Some(e) && st.jobs[j].kind.sources <= merged
    case Summarizing(j) => j < |st.jobs| && st.jobs[j].status.Processing? && st.jobs[j].kind.SummarizeSource?
  }

  predicate Terminal(job: Job) { job.status.Completed? || job.status.Failed? }

  /** Rows are never removed, keep their kind, and stay as they are once terminal. */
  ghost predicate Evolves(before: seq<Job>, after: seq<Job>) {
    && |before| <= |after|
    && forall i :: 0 <= i < |before| ==>
         && after[i].kind == before[i].kind
         && before[i].attempts <= after[i].attempts
         && (Terminal(before[i]) ==> after[i] == before[i])
  }

  lemma StepKeepsJobs(st: State, event: Event, worker: string)
    requires JobsOk(st.jobs) && HoldingOk(st) && Enabled(st, event)
    ensures var after := After(st, event, worker);
      JobsOk(after.jobs) && HoldingOk(after) && Evolves(st.jobs, after.jobs)
  {
    StepKeepsJobsOk(st, event, worker);
    StepKeepsHolding(st, event, worker);
    StepEvolves(st, event, worker);
  }

  lemma StepKeepsJobsOk(st: State, event: Event, worker: string)
    requires JobsOk(st.jobs) && HoldingOk(st) && Enabled(st, event)
    ensures JobsOk(After(st, event, worker).jobs)
  {
    hide MergedSources, RequestsOf, Requests, RequestsFrom, LinkedEntities;
  }

  lemma StepKeepsHolding(st: State, event: Event, worker: string)
    requires JobsOk(st.jobs) && HoldingOk(st) && Enabled(st, event)
    ensures HoldingOk(After(st, event, worker))
  {
    if event.CoalescedDuplicates? {
      OwnSourcesMerged(st.jobs, st.holding.job);
    }
    hide JobOk, MergedSources, RequestsOf, Requests, RequestsFrom, LinkedEntities;
  }

  lemma StepEvolves(st: State, event: Event, worker: string)
    requires JobsOk(st.jobs) && HoldingOk(st) && Enabled(st, event)
    ensures Evolves(st.jobs, After(st, event, worker).jobs)
  {
    hide JobOk, MergedSources, RequestsOf, Requests, RequestsFrom, LinkedEntities;
  }

  lemma OwnSourcesMerged(jobs: seq<Job>, j: Id)
    requires j < |jobs|
    ensures SourcesOf(jobs[j]) <= MergedSources(jobs, j)
  {
    forall s | s in SourcesOf(jobs[j]) ensures s in MergedSources(jobs, j) {
      assert 0 <= j < |jobs| && s in SourcesOf(jobs[j]);
    }
  }

  // ---- Ingests are all or nothing ----

  predicate DoneIngest(jobs: seq<Job>, j: Id) { j < |jobs| && jobs[j].kind.Ingest? && jobs[j].status.Completed? }

  /** Chunks are visible exactly for completed ingests, and come from their last attempt alone. */
  ghost predicate RowsOk(st: State) {
    && (forall r :: r in st.rows ==>
          DoneIngest(st.jobs, r.job) && r.source == st.jobs[r.job].kind.source && r.attempt == st.jobs[r.job].attempts)
    && (forall j: Id :: DoneIngest(st.jobs, j) ==> exists r :: r in st.rows && r.job == j && r.succeeded)
    && (forall r, q :: r in st.rows && q in st.rows && r.job == q.job && r.index == q.index ==> r == q)
  }

  function SpawnEnd(sp: Spawn): Id { sp.first + |sp.entities| }

  /** The jobs an ingest spawned: one per distinct entity, covering its own links, and one summary. */
  ghost predicate SpawnsFor(jobs: seq<Job>, rows: set<ChunkRow>, j: Id, sp: Spawn)
    requires DoneIngest(jobs, j)
  {
    var source := jobs[j].kind.source;
    && j < sp.first && SpawnEnd(sp) < |jobs|
    && Distinct(sp.entities)
    && (forall k :: 0 <= k < |sp.entities| ==>
          jobs[sp.first + k].kind == SynthesizeEntity(Some(sp.entities[k]), {source}))
    && jobs[SpawnEnd(sp)].kind == SummarizeSource(Some(source))
    && (forall r, e :: r in rows && r.job == j && e in r.entities ==> e in sp.entities)
  }

  ghost predicate Apart(a: Spawn, b: Spawn) { SpawnEnd(a) < b.first || SpawnEnd(b) < a.first }

  /** Spawned jobs exist exactly for completed ingests, and no two ingests share one. */
  ghost predicate SpawnOk(st: State) {
    && (forall j: Id :: j in st.spawned <==> DoneIngest(st.jobs, j))
    && (forall j :: j in st.spawned ==> SpawnsFor(st.jobs, st.rows, j, st.spawned[j]))
    && (forall i, j :: i in st.spawned && j in st.spawned && i != j ==> Apart(st.spawned[i], st.spawned[j]))
  }

  /** The entities linked to the source when the ingest whose spawn starts at first committed: its own
      chunks and those of ingests of the source that committed before it. */
  function LinksUpTo(st: State, source: Id, first: Id): set<Id> {
    set r, e | r in st.rows && r.source == source && r.job in st.spawned && st.spawned[r.job].first <= first
               && e in r.entities :: e
  }

  ghost predicate ExactlyLinked(st: State, j: Id)
    requires j in st.spawned && DoneIngest(st.jobs, j)
  {
    forall e :: e in st.spawned[j].entities <==> e in LinksUpTo(st, st.jobs[j].kind.source, st.spawned[j].first)
  }

  /** Every ingest spawned a synthesis for exactly the entities linked to its source when it committed. */
  ghost predicate SpawnsExact(st: State)
    requires SpawnOk(st)
  {
    forall j :: j in st.spawned ==> ExactlyLinked(st, j)
  }

  /** Only IngestDone completes an ingest, and it completes the held one. */
  lemma StepDoneIngests(st: State, event: Event, worker: string, j: Id)
    requires JobsOk(st.jobs) && HoldingOk(st) && Enabled(st, event)
    ensures DoneIngest(After(st, event, worker).jobs, j)
       <==> DoneIngest(st.jobs, j) || (event.IngestDone? && j == st.holding.job)
  {
  }

  lemma StepKeepsRows(st: State, event: Event, worker: string)
    requires JobsOk(st.jobs) && HoldingOk(st) && RowsOk(st) && Enabled(st, event)
    ensures RowsOk(After(st, event, worker))
  {
    var after := After(st, event, worker);
    StepKeepsJobs(st, event, worker);
    forall j: Id
      ensures DoneIngest(after.jobs, j) <==> DoneIngest(st.jobs, j) || (event.IngestDone? && j == st.holding.job)
    {
      StepDoneIngests(st, event, worker, j);
    }
    if event.IngestDone? {
      IngestAddsRows(st, event, worker);
    }
  }

  lemma IngestAddsRows(st: State, event: Event, worker: string)
    requires JobsOk(st.jobs) && HoldingOk(st) && RowsOk(st) && Enabled(st, event) && event.IngestDone?
    ensures RowsOk(After(st, event, worker))
  {
    var after := After(st, event, worker);
    var j := st.holding.job;
    var added := IngestRows(st, event.outcomes);
    NewRows(st, event.outcomes);
    assert after.rows == st.rows + added;
    assert after.jobs[j] == CompletedJob(Claimed(st.jobs[j], worker)) && !DoneIngest(st.jobs, j);
    forall k: Id ensures DoneIngest(after.jobs, k) <==> DoneIngest(st.jobs, k) || k == j {
      StepDoneIngests(st, event, worker, k);
    }
    assert forall k: Id :: DoneIngest(st.jobs, k) ==> after.jobs[k] == st.jobs[k];
    hide After, IngestRows, DoneIngest, JobsOk, HoldingOk, Enabled;
    forall k: Id | DoneIngest(after.jobs, k) ensures exists r :: r in after.rows && r.job == k && r.succeeded {
      if k != j {
        var r :| r in st.rows && r.job == k && r.succeeded;
        assert r in after.rows;
      }
    }
  }

  /** The rows an ingest adds carry its own job, attempt and source, one per chunk, with a success among them. */
  lemma NewRows(st: State, outcomes: seq<ChunkOutcome>)
    requires st.holding.Running? && st.holding.job < |st.jobs| && st.jobs[st.holding.job].kind.Ingest?
    requires exists o :: o in outcomes && o.succeeded
    ensures var job, added := st.jobs[st.holding.job], IngestRows(st, outcomes);
      && (forall r :: r in added ==>
            r.job == st.holding.job && r.attempt == job.attempts && r.source == job.kind.source)
      && (forall r, q :: r in added && q in added && r.index == q.index ==> r == q)
      && (exists r :: r in added && r.job == st.holding.job && r.succeeded)
  {
    var job, j := st.jobs[st.holding.job], st.holding.job;
    var o :| o in outcomes && o.succeeded;
    var i :| 0 <= i < |outcomes| && outcomes[i] == o;
    assert ChunkRow(j, job.attempts, job.kind.source, i, true, o.entities) in IngestRows(st, outcomes);
  }

  lemma SpawnSurvives(jobs: seq<Job>, rows: set<ChunkRow>, jobs': seq<Job>, rows': set<ChunkRow>, j: Id, sp: Spawn)
    requires DoneIngest(jobs, j) && Evolves(jobs, jobs') && SpawnsFor(jobs, rows, j, sp)
    requires forall r :: r in rows' && r.job == j ==> r in rows
    ensures DoneIngest(jobs', j) && SpawnsFor(jobs', rows', j, sp)
  {
  }

  ghost function AddedSpawn(st: State, event: Event): map<Id, Spawn>
    requires Enabled(st, event)
  {
    if event.IngestDone? then map[st.holding.job := Spawn(|st.jobs|, event.entities)] else map[]
  }

  lemma StepKeepsSpawns(st: State, event: Event, worker: string)
    requires JobsOk(st.jobs) && HoldingOk(st) && RowsOk(st) && SpawnOk(st) && Enabled(st, event)
    ensures SpawnOk(After(st, event, worker))
  {
    hide *;
    StepKeepsJobs(st, event, worker);
    SpawnAdded(st, event, worker);
    var after, added := After(st, event, worker), AddedSpawn(st, event);
    forall j: Id ensures DoneIngest(after.jobs, j) <==> DoneIngest(st.jobs, j) || j in added {
      AddedCompletes(st, event, worker, j);
    }
    SpawnsExtend(st, after, added);
  }

  lemma AddedCompletes(st: State, event: Event, worker: string, j: Id)
    requires JobsOk(st.jobs) && HoldingOk(st) && Enabled(st, event)
    ensures DoneIngest(After(st, event, worker).jobs, j) <==> DoneIngest(st.jobs, j) || j in AddedSpawn(st, event)
  {
    StepDoneIngests(st, event, worker, j);
  }

  lemma SpawnAdded(st: State, event: Event, worker: string)
    requires JobsOk(st.jobs) && HoldingOk(st) && RowsOk(st) && SpawnOk(st) && Enabled(st, event)
    ensures var after, added := After(st, event, worker), AddedSpawn(st, event);
      && after.spawned == st.spawned + added
      && (forall j :: j in added ==> j !in st.spawned && added[j].first == |st.jobs|)
      && (forall j :: j in added ==> DoneIngest(after.jobs, j) && SpawnsFor(after.jobs, after.rows, j, added[j]))
      && (forall i, j :: i in added && j in added ==> i == j)
      && (forall r :: r in after.rows ==> r in st.rows || r.job in added)
  {
    hide SpawnsFor, LinkedEntities, DoneIngest, IngestRows, JobsOk, RowsOk, SpawnOk, HoldingOk, RequestsFrom, Image;
    if event.IngestDone? {
      NewSpawn(st, event, worker);
      NewRows(st, event.outcomes);
      NotYetSpawned(st);
    } else {
      OtherEventsSpawnNothing(st, event, worker);
    }
  }

  lemma NotYetSpawned(st: State)
    requires HoldingOk(st) && SpawnOk(st) && st.holding.Running?
    ensures st.holding.job !in st.spawned
  {
  }

  lemma OtherEventsSpawnNothing(st: State, event: Event, worker: string)
    requires Enabled(st, event) && !event.IngestDone?
    ensures After(st, event, worker).spawned == st.spawned && After(st, event, worker).rows == st.rows
  {
  }

  lemma SpawnsExtend(st: State, after: State, added: map<Id, Spawn>)
    requires SpawnOk(st) && Evolves(st.jobs, after.jobs) && after.spawned == st.spawned + added
    requires forall j: Id :: DoneIngest(after.jobs, j) <==> DoneIngest(st.jobs, j) || j in added
    requires forall j :: j in added ==> j !in st.spawned && added[j].first == |st.jobs|
    requires forall j :: j in added ==> SpawnsFor(after.jobs, after.rows, j, added[j])
    requires forall i, j :: i in added && j in added ==> i == j
    requires forall r :: r in after.rows ==> r in st.rows || r.job in added
    ensures SpawnOk(after)
  {
    hide SpawnsFor;
    hide Evolves;
    forall j | j in st.spawned
      ensures DoneIngest(after.jobs, j) && SpawnsFor(after.jobs, after.rows, j, st.spawned[j])
      ensures SpawnEnd(st.spawned[j]) < |st.jobs|
    {
      SpawnSurvives(st.jobs, st.rows, after.jobs, after.rows, j, st.spawned[j]);
      SpawnInTable(st.jobs, st.rows, j, st.spawned[j]);
    }
  }

  // ---- Spawned entities are exactly the linked ones ----

  lemma StepKeepsExact(st: State, event: Event, worker: string)
    requires JobsOk(st.jobs) && HoldingOk(st) && RowsOk(st) && SpawnOk(st) && SpawnsExact(st) && Enabled(st, event)
    ensures SpawnOk(After(st, event, worker)) && SpawnsExact(After(st, event, worker))
  {
    hide *;
    StepKeepsSpawns(st, event, worker);
    StepEvolves(st, event, worker);
    if event.IngestDone? {
      IngestEntities(st, event, worker);
      IngestStaysExact(st, After(st, event, worker), st.holding.job, event.entities);
    } else {
      OtherEventsSpawnNothing(st, event, worker);
      SameSpawnsSameLinks(st, After(st, event, worker));
    }
  }

  lemma SameSpawnsSameLinks(st: State, after: State)
    requires SpawnOk(st) && SpawnsExact(st) && SpawnOk(after) && Evolves(st.jobs, after.jobs)
    requires after.spawned == st.spawned && after.rows == st.rows
    ensures SpawnsExact(after)
  {
    hide SpawnsFor;
    forall j | j in after.spawned ensures ExactlyLinked(after, j) {
      SpawnsKnown(st, j);
      SpawnsKnown(after, j);
      assert ExactlyLinked(st, j) && after.jobs[j].kind == st.jobs[j].kind;
    }
  }

  lemma SpawnsKnown(st: State, j: Id)
    requires SpawnOk(st) && j in st.spawned
    ensures DoneIngest(st.jobs, j) && SpawnsFor(st.jobs, st.rows, j, st.spawned[j])
    ensures st.spawned[j].first < |st.jobs|
  {
  }

  lemma IngestEntities(st: State, event: Event, worker: string)
    requires JobsOk(st.jobs) && HoldingOk(st) && RowsOk(st) && SpawnOk(st) && Enabled(st, event) && event.IngestDone?
    ensures st.holding.Running?
    ensures var after, j := After(st, event, worker), st.holding.job;
      && j < |st.jobs| && j !in st.spawned && |st.jobs| <= |after.jobs|
      && after.spawned == st.spawned[j := Spawn(|st.jobs|, event.entities)]
      && after.rows >= st.rows && (forall r :: r in after.rows ==> r in st.rows || r.job == j)
      && (forall r :: r in after.rows ==> r.job in after.spawned)
      && DoneIngest(after.jobs, j)
      && (forall e :: e in event.entities <==> e in LinkedEntities(after.rows, after.jobs[j].kind.source))
  {
    hide SpawnsFor;
    NotYetSpawned(st);
    StepDoneIngests(st, event, worker, st.holding.job);
    NewRows(st, event.outcomes);
    assert After(st, event, worker).rows == st.rows + IngestRows(st, event.outcomes);
    hide IngestRows, LinkedEntities, Image;
  }

  lemma IngestStaysExact(st: State, after: State, j: Id, entities: seq<Id>)
    requires SpawnOk(st) && SpawnsExact(st) && SpawnOk(after) && Evolves(st.jobs, after.jobs)
    requires j < |st.jobs| && j !in st.spawned && after.spawned == st.spawned[j := Spawn(|st.jobs|, entities)]
    requires after.rows >= st.rows && forall r :: r in after.rows ==> r in st.rows || r.job == j
    requires forall r :: r in after.rows ==> r.job in after.spawned
    requires DoneIngest(after.jobs, j)
    requires forall e :: e in entities <==> e in LinkedEntities(after.rows, after.jobs[j].kind.source)
    ensures SpawnsExact(after)
  {
    hide SpawnsFor, SpawnOk, SpawnsExact, Evolves;
    forall k | k in after.spawned ensures DoneIngest(after.jobs, k) && ExactlyLinked(after, k) {
      SpawnsKnown(after, k);
      if k == j {
        NewSpawnIsExact(st, after, j);
      } else {
        OldSpawnStaysExact(st, after, j, k);
      }
    }
    AllExact(after);
  }

  lemma AllExact(st: State)
    requires SpawnOk(st) && forall k :: k in st.spawned ==> DoneIngest(st.jobs, k) && ExactlyLinked(st, k)
    ensures SpawnsExact(st)
  {
  }

  lemma NewSpawnIsExact(st: State, after: State, j: Id)
    requires SpawnOk(st) && j in after.spawned && j !in st.spawned && after.spawned[j].first == |st.jobs|
    requires after.spawned == st.spawned[j := after.spawned[j]]
    requires forall r :: r in after.rows ==> r.job in after.spawned
    requires DoneIngest(after.jobs, j)
    requires forall e :: e in after.spawned[j].entities <==> e in LinkedEntities(after.rows, after.jobs[j].kind.source)
    ensures ExactlyLinked(after, j)
  {
    hide SpawnsFor, SpawnOk;
    forall k | k in st.spawned ensures st.spawned[k].first <= |st.jobs| {
      SpawnsKnown(st, k);
    }
    assert LinksUpTo(after, after.jobs[j].kind.source, |st.jobs|)
        == LinkedEntities(after.rows, after.jobs[j].kind.source);
  }

  lemma OldSpawnStaysExact(st: State, after: State, j: Id, k: Id)
    requires SpawnOk(st) && SpawnsExact(st) && Evolves(st.jobs, after.jobs)
    requires j !in st.spawned && k in st.spawned && j in after.spawned && after.spawned[j].first == |st.jobs|
    requires after.spawned == st.spawned[j := after.spawned[j]]
    requires after.rows >= st.rows && forall r :: r in after.rows ==> r in st.rows || r.job == j
    requires DoneIngest(after.jobs, k)
    ensures ExactlyLinked(after, k)
  {
    SpawnsKnown(st, k);
    hide SpawnsFor, SpawnOk;
    assert ExactlyLinked(st, k) && after.jobs[k].kind == st.jobs[k].kind && after.spawned[k] == st.spawned[k];
    var source, first := st.jobs[k].kind.source, st.spawned[k].first;
    assert LinksUpTo(after, source, first) == LinksUpTo(st, source, first);
  }

  lemma SpawnInTable(jobs: seq<Job>, rows: set<ChunkRow>, j: Id, sp: Spawn)
    requires DoneIngest(jobs, j) && SpawnsFor(jobs, rows, j, sp)
    ensures SpawnEnd(sp) < |jobs|
  {
  }

  lemma NewSpawn(st: State, event: Event, worker: string)
    requires JobsOk(st.jobs) && HoldingOk(st) && RowsOk(st) && Enabled(st, event) && event.IngestDone?
    ensures var after := After(st, event, worker);
      && DoneIngest(after.jobs, st.holding.job)
      && SpawnsFor(after.jobs, after.rows, st.holding.job, Spawn(|st.jobs|, event.entities))
  {
    var after := After(st, event, worker);
    var j := st.holding.job;
    var source := st.jobs[j].kind.source;
    var spawned := Image(SynthesisJob(source, event.now), event.entities);
    assert after.jobs
        == st.jobs[j := CompletedJob(Claimed(st.jobs[j], worker))] + spawned + [SummaryJob(source, event.now)];
    forall k | 0 <= k < |event.entities|
      ensures after.jobs[|st.jobs| + k].kind == SynthesizeEntity(Some(event.entities[k]), {source})
    {
      assert after.jobs[|st.jobs| + k] == spawned[k];
    }
    assert after.jobs[|st.jobs| + |event.entities|] == SummaryJob(source, event.now);
    forall r, e | r in after.rows && r.job == j && e in r.entities ensures e in event.entities {
      assert r in IngestRows(st, event.outcomes);
      assert e in LinkedEntities(after.rows, source);
    }
  }

  // ---- Pages hold recorded requests ----

  ghost predicate PagesOk(st: State) {
    forall e :: e in st.pages ==> Requests(e, st.pages[e]) <= st.recorded
  }

  lemma StepKeepsPages(st: State, event: Event, worker: string)
    requires PagesOk(st) && Enabled(st, event)
    ensures PagesOk(After(st, event, worker))
  {
    hide RequestsOf, Dropped, Image, Coalesced, MergedSources, LinkedEntities;
  }

  // ---- Synthesis requests are conserved ----

  /** Every request made is recorded in a page, still waiting, or was given up. */
  ghost predicate Conserved(st: State) {
    st.requested == st.recorded + Waiting(st) + st.abandoned
  }

  lemma PendingCarried(jobs: seq<Job>, i: Id)
    requires i < |jobs|
    ensures Carried(jobs[i]) <= PendingRequests(jobs)
  {
  }

  lemma PendingUpdate(jobs: seq<Job>, j: Id, job: Job)
    requires j < |jobs|
    ensures PendingRequests(jobs[j := job]) + Carried(jobs[j]) == PendingRequests(jobs) + Carried(job)
  {
    var after := jobs[j := job];
    forall q ensures q in PendingRequests(after) + Carried(jobs[j]) <==> q in PendingRequests(jobs) + Carried(job) {
      if q in PendingRequests(after) {
        var i :| 0 <= i < |after| && q in Carried(after[i]);
        assert i != j ==> after[i] == jobs[i];
      }
      if q in PendingRequests(jobs) {
        var i :| 0 <= i < |jobs| && q in Carried(jobs[i]);
        assert i != j ==> after[i] == jobs[i];
      }
      PendingCarried(after, j);
      PendingCarried(jobs, j);
    }
  }

  lemma PendingAppend(jobs: seq<Job>, more: seq<Job>)
    ensures PendingRequests(jobs + more) == PendingRequests(jobs) + PendingRequests(more)
  {
    var all := jobs + more;
    forall q ensures q in PendingRequests(all) <==> q in PendingRequests(jobs) + PendingRequests(more) {
      if q in PendingRequests(all) {
        var i :| 0 <= i < |all| && q in Carried(all[i]);
        if i < |jobs| { PendingCarried(jobs, i); } else { PendingCarried(more, i - |jobs|); }
      }
      if q in PendingRequests(jobs) {
        var i :| 0 <= i < |jobs| && q in Carried(jobs[i]);
        assert all[i] == jobs[i];
      }
      if q in PendingRequests(more) {
        var i :| 0 <= i < |more| && q in Carried(more[i]);
        assert all[|jobs| + i] == more[i];
      }
    }
  }

  /** Coalescing moves the requests of every pending job for the entity into the merged list. */
  lemma CoalescingConserves(jobs: seq<Job>, j: Id, worker: string)
    requires j < |jobs| && jobs[j].status.Pending? && jobs[j].kind.SynthesizeEntity? && jobs[j].kind.target.Some?
    ensures var after := Coalesced(jobs, j, worker);
      && PendingRequests(after) + Requests(jobs[j].kind.target.value, MergedSources(jobs, j)) == PendingRequests(jobs)
      && (forall i :: 0 <= i < |after| && after[i].status.Pending? && after[i].kind.SynthesizeEntity? ==>
            after[i].kind.target != jobs[j].kind.target)
  {
    var after := Coalesced(jobs, j, worker);
    var e := jobs[j].kind.target.value;
    forall q ensures q in PendingRequests(after) + Requests(e, MergedSources(jobs, j)) <==> q in PendingRequests(jobs) {
      if q in PendingRequests(after) {
        var i :| 0 <= i < |after| && q in Carried(after[i]);
        assert after[i] == jobs[i];
      }
      if q in Requests(e, MergedSources(jobs, j)) {
        var i :| 0 <= i < |jobs| && (i == j || Duplicate(jobs, j, i)) && q.source in SourcesOf(jobs[i]);
        assert q in Carried(jobs[i]);
      }
      if q in PendingRequests(jobs) {
        var i :| 0 <= i < |jobs| && q in Carried(jobs[i]);
        if i == j || Duplicate(jobs, j, i) {
          assert q.source in SourcesOf(jobs[i]);
        } else {
          assert after[i] == jobs[i];
        }
      }
    }
  }

  lemma SummariesCarryNothing(jobs: seq<Job>, j: Id, worker: string)
    requires j < |jobs| && jobs[j].kind.SummarizeSource?
    ensures PendingRequests(Coalesced(jobs, j, worker)) == PendingRequests(jobs)
  {
    var after := Coalesced(jobs, j, worker);
    forall q ensures q in PendingRequests(after) <==> q in PendingRequests(jobs) {
      if i :| 0 <= i < |jobs| && q in Carried(jobs[i]) {
        assert after[i] == jobs[i];
      }
    }
  }

  lemma SpawnedRequests(source: Id, now: int, entities: seq<Id>)
    ensures PendingRequests(Image(SynthesisJob(source, now), entities)) == RequestsFrom(entities, source)
  {
    var jobs := Image(SynthesisJob(source, now), entities);
    forall q ensures q in PendingRequests(jobs) <==> q.source == source && q.entity in entities {
      if q in PendingRequests(jobs) {
        var i :| 0 <= i < |jobs| && q in Carried(jobs[i]);
        assert jobs[i] == SynthesisJob(source, now)(entities[i]);
      }
      if q.source == source && q.entity in entities {
        var i :| 0 <= i < |entities| && entities[i] == q.entity;
        assert q in Carried(jobs[i]);
      }
    }
  }

  lemma StepConserves(st: State, event: Event, worker: string)
    requires JobsOk(st.jobs) && HoldingOk(st) && Conserved(st) && Enabled(st, event)
    ensures Conserved(After(st, event, worker))
  {
    match event
    case Enqueued(kind, maxRetries, scheduledAt, now) =>
      var job := NewJob(kind, maxRetries, scheduledAt, now);
      PendingAppend(st.jobs, [job]);
      PendingCarried([job], 0);
      assert PendingRequests([job]) == RequestsOf(job);
    case ClaimedNext(j) =>
    case IngestDone(outcomes, entities, now) =>
      IngestConserves(st, outcomes, entities, now, worker);
    case CoalescedDuplicates =>
      CoalescingConserves(st.jobs, st.holding.job, worker);
    case PageWritten =>
      PendingUpdate(st.jobs, st.holding.job, CompletedJob(st.jobs[st.holding.job]));
    case PageSkipped =>
      PendingUpdate(st.jobs, st.holding.job, CompletedJob(st.jobs[st.holding.job]));
    case SummaryStarted =>
      SummariesCarryNothing(st.jobs, st.holding.job, worker);
    case SummaryDone =>
      PendingUpdate(st.jobs, st.holding.job, CompletedJob(st.jobs[st.holding.job]));
    case BodyFailed(message) =>
      GivingUpConserves(st, FailedJob(st.jobs[st.holding.job], message));
    case LockExhausted =>
      GivingUpConserves(st, ReleasedJob(st.jobs[st.holding.job]));
    case Crashed =>
  }

  lemma GivingUpConserves(st: State, job: Job)
    requires JobsOk(st.jobs) && HoldingOk(st) && Conserved(st) && !st.holding.Idle?
    requires job.kind == st.jobs[st.holding.job].kind && (job.status.Pending? || job.status.Failed?)
    ensures Conserved(WithJob(st.(abandoned := st.abandoned + Dropped(st, job.status.Pending?)), job))
  {
    var j := st.holding.job;
    var own := RequestsOf(st.jobs[j]);
    var pending, after := PendingRequests(st.jobs), PendingRequests(st.jobs[j := job]);
    PendingUpdate(st.jobs, j, job);
    PendingCarried(st.jobs, j);
    PendingCarried(st.jobs[j := job], j);
    assert RequestsOf(job) == own;
    assert st.holding.Synthesizing? ==> own <= Requests(st.holding.entity, st.holding.merged);
    hide PendingRequests;
    hide RequestsOf;
    hide Requests;
    assert Carried(job) == if job.status.Pending? then own else {};
    assert after + Dropped(st, job.status.Pending?) == Waiting(st);
  }

  lemma IngestConserves(st: State, outcomes: seq<ChunkOutcome>, entities: seq<Id>, now: int, worker: string)
    requires HoldingOk(st) && Conserved(st) && Enabled(st, IngestDone(outcomes, entities, now))
    ensures Conserved(After(st, IngestDone(outcomes, entities, now), worker))
  {
    var j := st.holding.job;
    var source := st.jobs[j].kind.source;
    var updated := st.jobs[j := CompletedJob(Claimed(st.jobs[j], worker))];
    var synthesis := Image(SynthesisJob(source, now), entities);
    PendingUpdate(st.jobs, j, updated[j]);
    PendingAppend(updated, synthesis);
    PendingAppend(updated + synthesis, [SummaryJob(source, now)]);
    SpawnedRequests(source, now, entities);
    assert PendingRequests([SummaryJob(source, now)]) == {};
  }

  ghost predicate Inv(st: State) {
    JobsOk(st.jobs) && HoldingOk(st) && RowsOk(st) && SpawnOk(st) && SpawnsExact(st) && PagesOk(st) && Conserved(st)
  }

  /** Every state of every run: legal jobs, all-or-nothing ingests, conserved requests. */
  lemma {:induction false} RunsAreSafe(states: seq<State>, events: seq<Event>, worker: string, i: nat)
    requires Run(states, events, worker) && i < |states|
    ensures Inv(states[i])
  {
    if i > 0 {
      RunsAreSafe(states, events, worker, i - 1);
      StepKeepsInv(states[i - 1], events[i - 1], worker);
      assert Enabled(states[i - 1], events[i - 1]) && states[i - 1 + 1] == After(states[i - 1], events[i - 1], worker);
    } else {
      assert PendingRequests([]) == {};
    }
  }

  lemma StepKeepsInv(st: State, event: Event, worker: string)
    requires Inv(st) && Enabled(st, event)
    ensures Inv(After(st, event, worker))
  {
    hide After, Enabled, JobsOk, HoldingOk, RowsOk, SpawnOk, SpawnsExact, PagesOk, Conserved;
    StepKeepsJobs(st, event, worker);
    StepKeepsRows(st, event, worker);
    StepKeepsExact(st, event, worker);
    StepKeepsPages(st, event, worker);
    StepConserves(st, event, worker);
  }
}
