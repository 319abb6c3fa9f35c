/** The queue functions and the worker loop on the tables they update, proved
    to follow the protocol and to empty the queue. */
module JobWorker {
  import opened Sequences
  import opened JobProtocol
  import opened JobSafety

  /** How a body ends, as far as providers, parsers and the entity's lock decide it. */
  datatype Body = Raises(message: string) | Parsed(outcomes: seq<ChunkOutcome>) | Writes | Skips | Busy

  /** A job enqueued from outside the worker. */
  datatype Arrival = Arrival(kind: Kind, maxRetries: nat, scheduledAt: Option<int>, now: int)

  // ---- Attempts left ----

  function Left(job: Job, ingest: bool): nat {
    if job.status.Pending? && job.kind.Ingest? == ingest && job.attempts <= job.maxRetries
    then job.maxRetries + 1 - job.attempts else 0
  }

  function TotalLeft(jobs: seq<Job>, ingest: bool): nat {
    if jobs == [] then 0 else TotalLeft(jobs[..|jobs| - 1], ingest) + Left(jobs[|jobs| - 1], ingest)
  }

  lemma {:induction false} TotalLeftShrinks(before: seq<Job>, after: seq<Job>, ingest: bool)
    requires |before| == |after|
    requires forall i :: 0 <= i < |before| ==> Left(after[i], ingest) <= Left(before[i], ingest)
    ensures TotalLeft(after, ingest) <= TotalLeft(before, ingest)
    ensures forall i :: 0 <= i < |before| && Left(after[i], ingest) < Left(before[i], ingest) ==>
              TotalLeft(after, ingest) < TotalLeft(before, ingest)
  {
    if before == [] {
    } else {
      TotalLeftShrinks(before[..|before| - 1], after[..|after| - 1], ingest);
    }
  }

  lemma {:induction false} TotalLeftAppend(jobs: seq<Job>, more: seq<Job>, ingest: bool)
    requires forall job :: job in more ==> Left(job, ingest) == 0
    ensures TotalLeft(jobs + more, ingest) == TotalLeft(jobs, ingest)
  {
    if more == [] {
      assert jobs + more == jobs;
    } else {
      var n := |more| - 1;
      assert jobs + more == (jobs + more[..n]) + [more[n]];
      assert (jobs + more)[..|jobs| + n] == jobs + more[..n];
      TotalLeftAppend(jobs, more[..n], ingest);
    }
  }

  /** Fewer ingest attempts are left, or as many and fewer others. */
  ghost predicate Closer(before: seq<Job>, after: seq<Job>) {
    || TotalLeft(after, true) < TotalLeft(before, true)
    || (TotalLeft(after, true) == TotalLeft(before, true) && TotalLeft(after, false) < TotalLeft(before, false))
  }

  class Database {
    var jobs: seq<Job>
    var rows: set<ChunkRow>
    var pages: map<Id, set<Id>>
    var holding: Holding
    ghost var spawned: map<Id, Spawn>
    ghost var requested: set<Request>
    ghost var recorded: set<Request>
    ghost var abandoned: set<Request>

    ghost function St(): State
      reads this
    {
      State(jobs, rows, pages, holding, spawned, requested, recorded, abandoned)
    }

    constructor ()
      ensures St() == Empty && Inv(St())
    {
      jobs, rows, pages, holding := [], {}, map[], Idle;
      spawned, requested, recorded, abandoned := map[], {}, {}, {};
    }

    method Enqueue(kind: Kind, maxRetries: nat, scheduledAt: Option<int>, now: int, ghost worker: string)
      requires Inv(St())
      modifies this
      ensures St() == After(old(St()), Enqueued(kind, maxRetries, scheduledAt, now), worker)
      ensures Inv(St())
    {
      StepKeepsInv(St(), Enqueued(kind, maxRetries, scheduledAt, now), worker);
      var job := NewJob(kind, maxRetries, scheduledAt, now);
      jobs, requested := jobs + [job], requested + RequestsOf(job);
    }

    /** claim_next: the first claimable job in schedule order, or none. */
    method ClaimNext(ghost worker: string) returns (claimed: Option<Id>)
      requires Inv(St()) && holding.Idle?
      modifies this`holding
      ensures claimed.None? ==> St() == old(St()) && forall i :: 0 <= i < |jobs| ==> !jobs[i].status.Pending?
      ensures claimed.Some? ==> Enabled(old(St()), ClaimedNext(claimed.value))
      ensures claimed.Some? ==> St() == After(old(St()), ClaimedNext(claimed.value), worker) && Inv(St())
    {
      claimed := None;
      var i := 0;
      while i < |jobs|
        modifies {}
        invariant 0 <= i <= |jobs|
        invariant claimed.None? ==> forall k :: 0 <= k < i ==> !Claimable(jobs[k])
        invariant claimed.Some? ==> claimed.value < i && Claimable(jobs[claimed.value])
        invariant claimed.Some? ==>
          forall k :: 0 <= k < i && Claimable(jobs[k]) ==> !Before(jobs[k], jobs[claimed.value])
      {
        if Claimable(jobs[i]) && (claimed.None? || Before(jobs[i], jobs[claimed.value])) {
          claimed := Some(i);
        }
        i := i + 1;
      }
      if claimed.Some? {
        StepKeepsInv(St(), ClaimedNext(claimed.value), worker);
        holding := Running(claimed.value);
      } else {
        PendingIsClaimable(jobs);
      }
    }

    /** The ingest body and its commit: nothing unless some chunk succeeds. */
    method CommitIngest(outcomes: seq<ChunkOutcome>, now: int, worker: string) returns (entities: Option<seq<Id>>)
      requires Inv(St()) && holding.Running? && jobs[holding.job].kind.Ingest?
      modifies this
      ensures entities.None? <==> forall o :: o in outcomes ==> !o.succeeded
      ensures entities.None? ==> St() == old(St())
      ensures entities.Some? ==> Enabled(old(St()), IngestDone(outcomes, entities.value, now))
      ensures entities.Some? ==>
        St() == After(old(St()), IngestDone(outcomes, entities.value, now), worker) && Inv(St())
    {
      hide Inv, After, Enabled, Settles, Coalesced, MergedSources, RowsOf, LinkedEntities, RequestsFrom;
      var j := holding.job;
      HeldIsInTable(St());
      var source := jobs[j].kind.source;
      var added, succeeded := ProcessChunks(j, jobs[j].attempts, source, outcomes);
      if succeeded == 0 {
        return None;
      }
      var linked := Listed(LinkedEntities(rows + added, source));
      entities := Some(linked);
      IngestEffect(St(), outcomes, linked, now, worker);
      StepKeepsInv(St(), IngestDone(outcomes, linked, now), worker);
      ghost var after := After(St(), IngestDone(outcomes, linked, now), worker);
      spawned := spawned[j := Spawn(|jobs|, linked)];
      requested := requested + RequestsFrom(linked, source);
      jobs := EnqueueSynthesis(jobs[j := CompletedJob(Claimed(jobs[j], worker))], linked, source, now);
      rows := rows + added;
      holding := Idle;
      IsState(St(), after);
    }

    /** The coalescing of a synthesis and the commit behind it. */
    method CoalesceDuplicates(worker: string)
      requires Inv(St()) && holding.Running?
      requires jobs[holding.job].kind.SynthesizeEntity? && jobs[holding.job].kind.target.Some?
      modifies this`jobs, this`holding
      ensures St() == After(old(St()), CoalescedDuplicates, worker) && Inv(St())
    {
      hide Inv, After, Enabled, Settles, Coalesced, MergedSources, RowsOf, LinkedEntities, RequestsFrom;
      HeldIsInTable(St());
      CanCoalesce(St(), worker);
      StepKeepsInv(St(), CoalescedDuplicates, worker);
      CoalescedEffect(St(), worker);
      var j := holding.job;
      var table, sources := MergeDuplicateJobs(jobs, j, worker);
      holding := Synthesizing(j, jobs[j].kind.target.value, sources);
      jobs := table;
    }

    /** The page write, or its omission after a provider error, and the final commit. */
    method FinishPage(write: bool, ghost worker: string)
      requires Inv(St()) && holding.Synthesizing?
      modifies this
      ensures St() == After(old(St()), if write then PageWritten else PageSkipped, worker) && Inv(St())
    {
      StepKeepsInv(St(), if write then PageWritten else PageSkipped, worker);
      var j := holding.job;
      if write {
        pages := pages[holding.entity := holding.merged];
        recorded := recorded + Requests(holding.entity, holding.merged);
      } else {
        abandoned := abandoned + Requests(holding.entity, holding.merged);
      }
      jobs := jobs[j := CompletedJob(jobs[j])];
      holding := Idle;
    }

    /** _cancel_duplicate_jobs and the commit behind it. */
    method StartSummary(worker: string)
      requires Inv(St()) && holding.Running?
      requires jobs[holding.job].kind.SummarizeSource? && jobs[holding.job].kind.summarized.Some?
      modifies this`jobs, this`holding
      ensures St() == After(old(St()), SummaryStarted, worker) && Inv(St())
    {
      StepKeepsInv(St(), SummaryStarted, worker);
      var j := holding.job;
      var table := jobs[j := Claimed(jobs[j], worker)];
      var i := 0;
      while i < |jobs|
        modifies {}
        invariant 0 <= i <= |jobs| == |table|
        invariant forall k :: 0 <= k < i ==> table[k] == Coalesced(jobs, j, worker)[k]
        invariant forall k :: i <= k < |jobs| ==> table[k] == if k == j then Claimed(jobs[j], worker) else jobs[k]
      {
        if DuplicateSummary(jobs, j, i) {
          table := table[i := CompletedJob(jobs[i])];
        }
        i := i + 1;
      }
      assert table == Coalesced(jobs, j, worker);
      jobs, holding := table, Summarizing(j);
    }

    method FinishSummary(ghost worker: string)
      requires Inv(St()) && holding.Summarizing?
      modifies this`jobs, this`holding
      ensures St() == After(old(St()), SummaryDone, worker) && Inv(St())
    {
      StepKeepsInv(St(), SummaryDone, worker);
      var j := holding.job;
      jobs := jobs[j := CompletedJob(jobs[j])];
      holding := Idle;
    }

    /** The failure handler: rollback, refresh, fail_job, commit. */
    method Fail(message: string, ghost worker: string)
      requires Inv(St()) && !holding.Idle?
      modifies this`jobs, this`holding, this`abandoned
      ensures St() == After(old(St()), BodyFailed(message), worker) && Inv(St())
    {
      StepKeepsInv(St(), BodyFailed(message), worker);
      var j := holding.job;
      var job := FailedJob(jobs[j], message);
      abandoned := abandoned + Dropped(St(), job.status.Pending?);
      jobs := jobs[j := job];
      holding := Idle;
    }

    /** The lock-exhaustion handler: rollback, refresh, release_claim_to_pending, commit. */
    method Release(ghost worker: string)
      requires Inv(St()) && holding.Synthesizing?
      modifies this`jobs, this`holding, this`abandoned
      ensures St() == After(old(St()), LockExhausted, worker) && Inv(St())
    {
      StepKeepsInv(St(), LockExhausted, worker);
      var j := holding.job;
      abandoned := abandoned + Dropped(St(), true);
      jobs := jobs[j := ReleasedJob(jobs[j])];
      holding := Idle;
    }
  }

  lemma HeldIsInTable(st: State)
    requires Inv(st) && !st.holding.Idle?
    ensures st.holding.job < |st.jobs|
  {
    hide RowsOk, SpawnOk, SpawnsExact, PagesOk, Conserved;
  }

  /** The claim's bound on attempts never keeps a pending job from being claimed. */
  lemma PendingIsClaimable(jobs: seq<Job>)
    requires JobsOk(jobs)
    ensures forall i :: 0 <= i < |jobs| ==> (jobs[i].status.Pending? <==> Claimable(jobs[i]))
  {
    assert forall i :: 0 <= i < |jobs| ==> JobOk(jobs[i]);
  }

  lemma RowsGrow(job: Id, attempt: nat, source: Id, outcomes: seq<ChunkOutcome>, i: nat)
    requires i < |outcomes|
    ensures RowsOf(job, attempt, source, outcomes[..i + 1])
         == RowsOf(job, attempt, source, outcomes[..i])
            + {ChunkRow(job, attempt, source, i, outcomes[i].succeeded, outcomes[i].entities)}
  {
  }

  lemma IngestEffect(st: State, outcomes: seq<ChunkOutcome>, entities: seq<Id>, now: int, worker: string)
    requires st.holding.Running? && st.holding.job < |st.jobs| && st.jobs[st.holding.job].kind.Ingest?
    requires !forall o :: o in outcomes ==> !o.succeeded
    requires var job := st.jobs[st.holding.job];
      Distinct(entities) && forall e :: e in entities <==>
        e in LinkedEntities(st.rows + RowsOf(st.holding.job, job.attempts, job.kind.source, outcomes), job.kind.source)
    ensures Enabled(st, IngestDone(outcomes, entities, now))
    ensures var job := st.jobs[st.holding.job];
      var after := After(st, IngestDone(outcomes, entities, now), worker);
      && after.jobs == st.jobs[st.holding.job := CompletedJob(Claimed(job, worker))]
                       + Image(SynthesisJob(job.kind.source, now), entities) + [SummaryJob(job.kind.source, now)]
      && after.rows == st.rows + RowsOf(st.holding.job, job.attempts, job.kind.source, outcomes)
      && after.spawned == st.spawned[st.holding.job := Spawn(|st.jobs|, entities)]
      && after.requested == st.requested + RequestsFrom(entities, job.kind.source)
      && after.holding == Idle
      && after.pages == st.pages && after.recorded == st.recorded && after.abandoned == st.abandoned
  {
  }

  lemma IsState(a: State, b: State)
    requires a.jobs == b.jobs && a.rows == b.rows && a.pages == b.pages && a.holding == b.holding
    requires a.spawned == b.spawned && a.requested == b.requested && a.recorded == b.recorded
    requires a.abandoned == b.abandoned
    ensures a == b
  {
  }

  /** The chunk loop: every chunk leaves a row, failed ones too; count the successes. */
  method ProcessChunks(job: Id, attempt: nat, source: Id, outcomes: seq<ChunkOutcome>)
    returns (added: set<ChunkRow>, succeeded: nat)
    ensures added == RowsOf(job, attempt, source, outcomes)
    ensures succeeded == 0 <==> forall o :: o in outcomes ==> !o.succeeded
  {
    added, succeeded := {}, 0;
    var i := 0;
    while i < |outcomes|
      invariant 0 <= i <= |outcomes|
      invariant added == RowsOf(job, attempt, source, outcomes[..i])
      invariant succeeded == 0 <==> forall o :: o in outcomes[..i] ==> !o.succeeded
    {
      RowsGrow(job, attempt, source, outcomes, i);
      added := added + {ChunkRow(job, attempt, source, i, outcomes[i].succeeded, outcomes[i].entities)};
      if outcomes[i].succeeded {
        succeeded := succeeded + 1;
      }
      assert outcomes[..i + 1] == outcomes[..i] + [outcomes[i]];
      i := i + 1;
    }
    assert outcomes[..i] == outcomes;
  }

  /** One synthesis job per linked entity, then the source summary. */
  method EnqueueSynthesis(jobs: seq<Job>, entities: seq<Id>, source: Id, now: int) returns (table: seq<Job>)
    ensures table == jobs + Image(SynthesisJob(source, now), entities) + [SummaryJob(source, now)]
  {
    table := jobs;
    var i := 0;
    while i < |entities|
      invariant 0 <= i <= |entities|
      invariant table == jobs + Image(SynthesisJob(source, now), entities[..i])
    {
      assert entities[..i + 1] == entities[..i] + [entities[i]];
      ImageAppend(SynthesisJob(source, now), entities[..i], entities[i]);
      table := table + [SynthesisJob(source, now)(entities[i])];
      i := i + 1;
    }
    assert entities[..i] == entities;
    table := table + [SummaryJob(source, now)];
  }

  function MergedUpTo(jobs: seq<Job>, j: Id, n: nat): set<Id>
    requires j < |jobs| && n <= |jobs|
  {
    set i, s | 0 <= i < n && Duplicate(jobs, j, i) && s in SourcesOf(jobs[i]) :: s
  }

  /** _merge_duplicate_jobs: complete the other pending syntheses of the entity and gather their sources. */
  method MergeDuplicateJobs(jobs: seq<Job>, j: Id, worker: string) returns (table: seq<Job>, sources: set<Id>)
    requires j < |jobs| && jobs[j].kind.SynthesizeEntity?
    ensures table == Coalesced(jobs, j, worker) && sources == MergedSources(jobs, j)
  {
    hide *;
    table, sources := jobs[j := Claimed(jobs[j], worker)], jobs[j].kind.sources;
    NothingMerged(jobs, j);
    var i := 0;
    while i < |jobs|
      invariant 0 <= i <= |jobs| == |table|
      invariant forall k :: 0 <= k < i ==> table[k] == Coalesced(jobs, j, worker)[k]
      invariant forall k :: i <= k < |jobs| ==> table[k] == if k == j then Claimed(jobs[j], worker) else jobs[k]
      invariant sources == MergedUpTo(jobs, j, i) + SourcesOf(jobs[j])
    {
      CoalescedRow(jobs, j, worker, i);
      MergedNext(jobs, j, i);
      if Duplicate(jobs, j, i) {
        table := table[i := CompletedJob(jobs[i])];
        sources := sources + jobs[i].kind.sources;
      }
      i := i + 1;
    }
    MergedAll(jobs, j);
  }

  lemma NothingMerged(jobs: seq<Job>, j: Id)
    requires j < |jobs| && jobs[j].kind.SynthesizeEntity?
    ensures jobs[j].kind.sources == MergedUpTo(jobs, j, 0) + SourcesOf(jobs[j])
  {
  }

  /** Coalescing row by row, for an entity synthesis. */
  lemma CoalescedRow(jobs: seq<Job>, j: Id, worker: string, i: Id)
    requires j < |jobs| && i < |jobs| && jobs[j].kind.SynthesizeEntity?
    ensures Coalesced(jobs, j, worker)[i]
      == if i == j then Claimed(jobs[j], worker) else if Duplicate(jobs, j, i) then CompletedJob(jobs[i]) else jobs[i]
    ensures Duplicate(jobs, j, i) ==>
      i != j && jobs[i].kind.SynthesizeEntity? && jobs[i].kind.sources == SourcesOf(jobs[i])
  {
  }

  lemma CoalescedEffect(st: State, worker: string)
    requires Enabled(st, CoalescedDuplicates)
    ensures var j := st.holding.job;
      After(st, CoalescedDuplicates, worker)
        == st.(jobs := Coalesced(st.jobs, j, worker),
               holding := Synthesizing(j, st.jobs[j].kind.target.value, MergedSources(st.jobs, j)))
  {
  }

  lemma MergedNext(jobs: seq<Job>, j: Id, i: Id)
    requires j < |jobs| && i < |jobs|
    ensures MergedUpTo(jobs, j, i + 1)
        == MergedUpTo(jobs, j, i) + if Duplicate(jobs, j, i) then SourcesOf(jobs[i]) else {}
  {
  }

  lemma MergedAll(jobs: seq<Job>, j: Id)
    requires j < |jobs|
    ensures MergedUpTo(jobs, j, |jobs|) + SourcesOf(jobs[j]) == MergedSources(jobs, j)
  {
    OwnSourcesMerged(jobs, j);
  }

  /** SELECT DISTINCT, in whatever order the database returns. */
  method Listed(ids: set<Id>) returns (list: seq<Id>)
    ensures Distinct(list) && forall e :: e in list <==> e in ids
  {
    list := [];
    var rest := ids;
    while rest != {}
      invariant rest <= ids && Distinct(list)
      invariant forall e :: e in list <==> e in ids - rest
      decreases rest
    {
      var e :| e in rest;
      assert e !in list;
      list, rest := list + [e], rest - {e};
    }
  }

  // ---- The worker loop ----

  /** One job of the table used up an attempt or finished; the others got no attempts back,
      and only an ingest leaves new jobs, none of them ingests. */
  ghost predicate Settles(before: seq<Job>, after: seq<Job>, j: Id) {
    && j < |before| <= |after|
    && (forall i, ingest :: 0 <= i < |before| ==> Left(after[i], ingest) <= Left(before[i], ingest))
    && Left(after[j], before[j].kind.Ingest?) < Left(before[j], before[j].kind.Ingest?)
    && (forall i :: |before| <= i < |after| ==> !after[i].kind.Ingest?)
    && (!before[j].kind.Ingest? ==> |after| == |before|)
  }

  lemma SettlingIsCloser(before: seq<Job>, after: seq<Job>, j: Id)
    requires Settles(before, after, j)
    ensures Closer(before, after)
  {
    var same, more := after[..|before|], after[|before|..];
    assert after == same + more;
    TotalLeftAppend(same, more, true);
    TotalLeftShrinks(before, same, true);
    TotalLeftShrinks(before, same, false);
    assert Left(same[j], before[j].kind.Ingest?) < Left(before[j], before[j].kind.Ingest?);
    if !before[j].kind.Ingest? {
      assert same == after;
    }
  }

  lemma FailureSettles(st: State, message: string, worker: string)
    requires Inv(st) && st.holding.Running?
    ensures Settles(st.jobs, After(st, BodyFailed(message), worker).jobs, st.holding.job)
    ensures After(st, BodyFailed(message), worker).holding.Idle?
  {
  }

  lemma IngestSettles(st: State, outcomes: seq<ChunkOutcome>, entities: seq<Id>, now: int, worker: string)
    requires Inv(st) && Enabled(st, IngestDone(outcomes, entities, now))
    ensures Settles(st.jobs, After(st, IngestDone(outcomes, entities, now), worker).jobs, st.holding.job)
  {
    var source := st.jobs[st.holding.job].kind.source;
    var jobs, spawned := st.jobs, Image(SynthesisJob(source, now), entities);
    var after := After(st, IngestDone(outcomes, entities, now), worker).jobs;
    assert after == jobs[st.holding.job := CompletedJob(Claimed(jobs[st.holding.job], worker))]
                    + spawned + [SummaryJob(source, now)];
    forall i | |jobs| <= i < |after| ensures !after[i].kind.Ingest? {
      assert after[i] == if i < |jobs| + |spawned| then spawned[i - |jobs|] else SummaryJob(source, now);
    }
  }

  /** After coalescing, completing the held job or counting a failure against it settles it. */
  lemma CoalescingSettles(st: State, job: Job, worker: string)
    requires Inv(st) && st.holding.Running? && !st.jobs[st.holding.job].kind.Ingest?
    requires job.kind == st.jobs[st.holding.job].kind && job.maxRetries == st.jobs[st.holding.job].maxRetries
    requires job.status.Pending? ==> job.attempts == st.jobs[st.holding.job].attempts + 1
    ensures Settles(st.jobs, Coalesced(st.jobs, st.holding.job, worker)[st.holding.job := job], st.holding.job)
  {
    assert JobOk(st.jobs[st.holding.job]);
  }

  /** However the body of a coalescing job ends, it leaves the worker idle and the job settled. */
  lemma EndingSettles(st: State, start: Event, end: Event, worker: string)
    requires Inv(st) && Enabled(st, start) && (start.CoalescedDuplicates? || start.SummaryStarted?)
    requires Enabled(After(st, start, worker), end)
    requires start.CoalescedDuplicates? ==> end.PageWritten? || end.PageSkipped? || end.BodyFailed?
    requires !start.CoalescedDuplicates? ==> end.SummaryDone? || end.BodyFailed?
    ensures var last := After(After(st, start, worker), end, worker);
      last.holding.Idle? && Settles(st.jobs, last.jobs, st.holding.job)
  {
    var middle := After(st, start, worker);
    var job := middle.jobs[st.holding.job];
    CoalescingSettles(st, if end.BodyFailed? then FailedJob(job, end.message) else CompletedJob(job), worker);
    hide Settles, Inv, MergedSources, RequestsOf, Requests;
  }

  method RunIngestBody(db: Database, worker: string, body: Body, now: int)
    requires Inv(db.St()) && db.holding.Running? && db.jobs[db.holding.job].kind.Ingest?
    modifies db
    ensures Inv(db.St()) && db.holding.Idle? && Settles(old(db.jobs), db.jobs, old(db.holding).job)
  {
    var message := Message(body);
    if body.Parsed? {
      ghost var st := db.St();
      var entities := db.CommitIngest(body.outcomes, now, worker);
      if entities.Some? {
        IngestSettles(st, body.outcomes, entities.value, now, worker);
        return;
      }
      message := "All chunks failed";
    }
    FailureSettles(db.St(), message, worker);
    db.Fail(message, worker);
  }

  method RunEntityBody(db: Database, worker: string, body: Body)
    requires Inv(db.St()) && db.holding.Running? && db.jobs[db.holding.job].kind.SynthesizeEntity?
    modifies db
    ensures Inv(db.St()) && db.holding.Idle?
    ensures !body.Busy? ==> Settles(old(db.jobs), db.jobs, old(db.holding).job)
  {
    hide Inv, After, Enabled, Settles, Coalesced, MergedSources, RowsOf, LinkedEntities, RequestsFrom;
    ghost var st := db.St();
    HeldIsInTable(st);
    if db.jobs[db.holding.job].kind.target.None? {
      FailureSettles(st, "target_entity_id is null", worker);
      db.Fail("target_entity_id is null", worker);
      return;
    }
    CanCoalesce(st, worker);
    db.CoalesceDuplicates(worker);
    if body.Busy? {
      ReleaseIdles(db.St(), worker);
      db.Release(worker);
    } else if body.Writes? || body.Skips? {
      EndingSettles(st, CoalescedDuplicates, if body.Writes? then PageWritten else PageSkipped, worker);
      db.FinishPage(body.Writes?, worker);
    } else {
      EndingSettles(st, CoalescedDuplicates, BodyFailed(Message(body)), worker);
      db.Fail(Message(body), worker);
    }
  }

  lemma ReleaseIdles(st: State, worker: string)
    requires Inv(st) && Enabled(st, LockExhausted)
    ensures After(st, LockExhausted, worker).holding.Idle?
  {
  }

  lemma CanCoalesce(st: State, worker: string)
    requires Inv(st) && st.holding.Running? && st.jobs[st.holding.job].kind.SynthesizeEntity?
    requires st.jobs[st.holding.job].kind.target.Some?
    ensures Enabled(st, CoalescedDuplicates)
    ensures var middle := After(st, CoalescedDuplicates, worker);
      middle.holding.Synthesizing? && forall end: Event ::
        end.PageWritten? || end.PageSkipped? || end.BodyFailed? || end.LockExhausted? ==> Enabled(middle, end)
  {
  }

  lemma CanSummarize(st: State, worker: string)
    requires Inv(st) && st.holding.Running? && st.jobs[st.holding.job].kind.SummarizeSource?
    requires st.jobs[st.holding.job].kind.summarized.Some?
    ensures Enabled(st, SummaryStarted)
    ensures var middle := After(st, SummaryStarted, worker);
      middle.holding.Summarizing? && forall end: Event :: end.SummaryDone? || end.BodyFailed? ==> Enabled(middle, end)
  {
  }

  method RunSummaryBody(db: Database, worker: string, body: Body)
    requires Inv(db.St()) && db.holding.Running? && db.jobs[db.holding.job].kind.SummarizeSource?
    modifies db
    ensures Inv(db.St()) && db.holding.Idle? && Settles(old(db.jobs), db.jobs, old(db.holding).job)
  {
    hide Inv, After, Enabled, Settles, Coalesced, MergedSources, RowsOf, LinkedEntities, RequestsFrom;
    ghost var st := db.St();
    HeldIsInTable(st);
    if db.jobs[db.holding.job].kind.summarized.None? {
      FailureSettles(st, "payload missing or invalid source_id", worker);
      db.Fail("payload missing or invalid source_id", worker);
      return;
    }
    CanSummarize(st, worker);
    db.StartSummary(worker);
    if body.Writes? || body.Skips? {
      EndingSettles(st, SummaryStarted, SummaryDone, worker);
      db.FinishSummary(worker);
    } else {
      EndingSettles(st, SummaryStarted, BodyFailed(Message(body)), worker);
      db.Fail(Message(body), worker);
    }
  }

  /** Dispatch on the job type, run the body, and commit its outcome, its failure or its release. */
  method RunBody(db: Database, worker: string, body: Body, now: int)
    requires Inv(db.St()) && db.holding.Running?
    modifies db
    ensures Inv(db.St()) && db.holding.Idle?
    ensures !body.Busy? ==> Closer(old(db.jobs), db.jobs)
  {
    hide Inv, After, Enabled, Settles, Coalesced, MergedSources, RowsOf, LinkedEntities, RequestsFrom;
    ghost var before, j := db.jobs, db.holding.job;
    HeldIsInTable(db.St());
    match db.jobs[db.holding.job].kind {
      case Ingest(_) =>
        RunIngestBody(db, worker, body, now);
      case SynthesizeEntity(_, _) =>
        RunEntityBody(db, worker, body);
      case SummarizeSource(_) =>
        RunSummaryBody(db, worker, body);
      case UnknownKind =>
        FailureSettles(db.St(), "Unknown job type", worker);
        db.Fail("Unknown job type", worker);
    }
    if !body.Busy? {
      SettlingIsCloser(before, db.jobs, j);
    }
  }

  function Message(body: Body): string { if body.Raises? then body.message else "body failed" }

  method EnqueueAll(db: Database, worker: string, arrivals: seq<Arrival>)
    requires Inv(db.St()) && db.holding.Idle?
    modifies db
    ensures Inv(db.St()) && db.holding.Idle?
    ensures arrivals == [] ==> db.St() == old(db.St())
  {
    for i := 0 to |arrivals|
      invariant Inv(db.St()) && db.holding.Idle?
      invariant i == 0 ==> db.St() == old(db.St())
    {
      var a := arrivals[i];
      db.Enqueue(a.kind, a.maxRetries, a.scheduledAt, a.now, worker);
    }
  }

  /** Whatever arrives and however often locks are busy before the given poll, once both have stopped the loop
      empties the queue: no job is pending, and every request was recorded or given up on the way. */
  method WorkerLoop(db: Database, worker: string, bodies: nat -> Body, arrivals: nat -> seq<Arrival>,
                    clock: nat -> int, quiet: nat)
    requires Inv(db.St()) && db.holding.Idle?
    requires forall n :: n >= quiet ==> !bodies(n).Busy? && arrivals(n) == []
    modifies db
    ensures Inv(db.St()) && db.holding.Idle?
    ensures forall i :: 0 <= i < |db.jobs| ==> !db.jobs[i].status.Pending?
    ensures db.requested == db.recorded + db.abandoned
  {
    var n, idle := 0, false;
    while n < quiet || !idle
      invariant Inv(db.St()) && db.holding.Idle?
      invariant idle ==> forall i :: 0 <= i < |db.jobs| ==> !db.jobs[i].status.Pending?
      decreases if n < quiet then quiet - n else 0, TotalLeft(db.jobs, true), TotalLeft(db.jobs, false), !idle
    {
      EnqueueAll(db, worker, arrivals(n));
      var claimed := db.ClaimNext(worker);
      if claimed.Some? {
        RunBody(db, worker, bodies(n), clock(n));
      }
      idle := claimed.None?;
      n := n + 1;
    }
    NothingWaits(db.St());
  }

  lemma NothingWaits(st: State)
    requires Inv(st) && st.holding.Idle? && forall i :: 0 <= i < |st.jobs| ==> !st.jobs[i].status.Pending?
    ensures st.requested == st.recorded + st.abandoned
  {
    assert PendingRequests(st.jobs) == {};
  }
}
