/** What each transaction of the queue leaves in the job table, row by row, and
    what becomes of a source's summary over a run. */
module QueueRows {
  import opened Sequences
  import opened JobProtocol
  import opened JobSafety
  import opened JobOutcomes

  // ---- Enqueueing and claiming ----

  /** A new job waits, unclaimed and with no attempt used, behind all others. */
  lemma EnqueuedRow(st: State, kind: Kind, maxRetries: nat, scheduledAt: Option<int>, now: int, worker: string)
    ensures var event := Enqueued(kind, maxRetries, scheduledAt, now);
      && Enabled(st, event)
      && After(st, event, worker).jobs
         == st.jobs + [Job(kind, Pending, 0, maxRetries, scheduledAt, now, None, None)]
      && After(st, event, worker).holding == st.holding
  {
  }

  /** The claim takes a pending job with attempts left; no other such job was due earlier, unscheduled jobs
      being due before scheduled ones and older jobs before younger ones of one schedule. */
  lemma ClaimIsEarliest(st: State, j: Id, i: Id, worker: string)
    requires Enabled(st, ClaimedNext(j)) && i < |st.jobs|
    requires st.jobs[i].status.Pending? && st.jobs[i].attempts <= st.jobs[i].maxRetries
    ensures j < |st.jobs| && st.jobs[j].status.Pending? && st.jobs[j].attempts <= st.jobs[j].maxRetries
    ensures After(st, ClaimedNext(j), worker) == st.(holding := Running(j))
    ensures st.jobs[i].scheduledAt.None? ==>
      st.jobs[j].scheduledAt.None? && st.jobs[j].createdAt <= st.jobs[i].createdAt
    ensures st.jobs[i].scheduledAt.Some? && st.jobs[j].scheduledAt.Some? ==>
      || st.jobs[j].scheduledAt.value < st.jobs[i].scheduledAt.value
      || (st.jobs[j].scheduledAt == st.jobs[i].scheduledAt && st.jobs[j].createdAt <= st.jobs[i].createdAt)
  {
    assert Claimable(st.jobs[i]) && !Before(st.jobs[i], st.jobs[j]);
  }

  // ---- An ingest's commit ----

  /** An ingest leaves one row per chunk outcome of its own source and attempt. */
  lemma IngestedRows(st: State, outcomes: seq<ChunkOutcome>, entities: seq<Id>, now: int, worker: string)
    requires Enabled(st, IngestDone(outcomes, entities, now))
    ensures var h := st.holding.job;
      h < |st.jobs| && st.jobs[h].kind.Ingest?
      && forall r: ChunkRow :: r in After(st, IngestDone(outcomes, entities, now), worker).rows <==>
           || r in st.rows
           || (&& r.job == h && r.attempt == st.jobs[h].attempts && r.source == st.jobs[h].kind.source
               && r.index < |outcomes|
               && r.succeeded == outcomes[r.index].succeeded && r.entities == outcomes[r.index].entities)
  {
  }

  /** It completes its job and adds one synthesis per entity and one summary, each with three retries. */
  lemma IngestedJobs(st: State, outcomes: seq<ChunkOutcome>, entities: seq<Id>, now: int, worker: string)
    requires Enabled(st, IngestDone(outcomes, entities, now))
    ensures var h, after := st.holding.job, After(st, IngestDone(outcomes, entities, now), worker);
      var n := |st.jobs|;
      && h < n && st.jobs[h].kind.Ingest? && |after.jobs| == n + |entities| + 1 && after.holding == Idle
      && after.jobs[h] == st.jobs[h].(status := Completed, worker := Some(worker))
      && (forall i :: 0 <= i < n && i != h ==> after.jobs[i] == st.jobs[i])
      && (forall k :: 0 <= k < |entities| ==>
            after.jobs[n + k] == Job(SynthesizeEntity(Some(entities[k]), {st.jobs[h].kind.source}), Pending, 0, 3, None,
                                     now, None, None))
      && after.jobs[n + |entities|]
         == Job(SummarizeSource(Some(st.jobs[h].kind.source)), Pending, 0, 3, None, now, None, None)
  {
    hide IngestRows, RequestsFrom, LinkedEntities;
  }

  // ---- Coalescing and cancelling ----

  /** A synthesis of entity e completes the other pending syntheses of e, nothing else, and holds their sources
      with its own. */
  lemma CoalescedRows(st: State, e: Id, worker: string)
    requires Enabled(st, CoalescedDuplicates) && st.jobs[st.holding.job].kind.target == Some(e)
    ensures var h, jobs, after := st.holding.job, st.jobs, After(st, CoalescedDuplicates, worker);
      && |after.jobs| == |jobs|
      && after.jobs[h] == jobs[h].(status := Processing, worker := Some(worker))
      && (forall i :: 0 <= i < |jobs| && i != h ==>
            var other := jobs[i].kind;
            var cancelled := jobs[i].status.Pending? && other.SynthesizeEntity? && other.target == Some(e);
            after.jobs[i] == if cancelled then jobs[i].(status := Completed) else jobs[i])
    ensures var h, jobs, holding := st.holding.job, st.jobs, After(st, CoalescedDuplicates, worker).holding;
      && holding.Synthesizing? && holding.job == h && holding.entity == e
      && forall s :: s in holding.merged <==>
           || s in jobs[h].kind.sources
           || exists i :: 0 <= i < |jobs| && jobs[i].status.Pending? && jobs[i].kind.SynthesizeEntity?
                && jobs[i].kind.target == Some(e) && s in jobs[i].kind.sources
  {
    CoalescedSources(st, e, worker);
    hide MergedSources;
  }

  lemma CoalescedSources(st: State, e: Id, worker: string)
    requires Enabled(st, CoalescedDuplicates) && st.jobs[st.holding.job].kind.target == Some(e)
    ensures forall s :: s in MergedSources(st.jobs, st.holding.job) <==>
      || s in st.jobs[st.holding.job].kind.sources
      || exists i :: 0 <= i < |st.jobs| && st.jobs[i].status.Pending? && st.jobs[i].kind.SynthesizeEntity?
           && st.jobs[i].kind.target == Some(e) && s in st.jobs[i].kind.sources
  {
    var h, jobs := st.holding.job, st.jobs;
    forall s | s in jobs[h].kind.sources ensures s in MergedSources(jobs, h) {
      assert s in SourcesOf(jobs[h]);
    }
    forall s, i | 0 <= i < |jobs| && jobs[i].status.Pending? && jobs[i].kind.SynthesizeEntity?
                  && jobs[i].kind.target == Some(e) && s in jobs[i].kind.sources
      ensures s in MergedSources(jobs, h)
    {
      assert s in SourcesOf(jobs[i]) && (i == h || Duplicate(jobs, h, i));
    }
  }

  /** A summary of source s completes the other pending summaries of s; every other row stays as it is. */
  lemma CancelledRows(st: State, s: Id, worker: string)
    requires Enabled(st, SummaryStarted) && st.jobs[st.holding.job].kind == SummarizeSource(Some(s))
    ensures var h, jobs, after := st.holding.job, st.jobs, After(st, SummaryStarted, worker);
      && after == st.(jobs := after.jobs, holding := Summarizing(h)) && |after.jobs| == |jobs|
      && after.jobs[h] == jobs[h].(status := Processing, worker := Some(worker))
      && (forall i :: 0 <= i < |jobs| && i != h ==>
            (after.jobs[i].status.Completed? <==>
               jobs[i].status.Completed? || (jobs[i].status.Pending? && jobs[i].kind == SummarizeSource(Some(s)))))
      && (forall i :: 0 <= i < |jobs| && i != h ==>
            after.jobs[i] == if jobs[i].status.Pending? && jobs[i].kind == SummarizeSource(Some(s))
                             then jobs[i].(status := Completed) else jobs[i])
  {
  }

  // ---- How bodies end ----

  /** The row of the held job after each way its body can end; all other rows stay. */
  lemma EndedRows(st: State, event: Event, worker: string)
    requires Enabled(st, event) && !st.holding.Idle?
    requires event.PageWritten? || event.PageSkipped? || event.SummaryDone? || event.BodyFailed? || event.LockExhausted?
    ensures st.holding.job < |st.jobs|
    ensures var h, job, after := st.holding.job, st.jobs[st.holding.job], After(st, event, worker);
      && after.holding == Idle && |after.jobs| == |st.jobs|
      && (forall i :: 0 <= i < |st.jobs| && i != h ==> after.jobs[i] == st.jobs[i])
      && (event.PageWritten? || event.PageSkipped? || event.SummaryDone? ==>
            after.jobs[h] == job.(status := Completed))
      && (event.LockExhausted? ==> after.jobs[h] == job.(status := Pending, worker := None))
      && (event.BodyFailed? && job.attempts < job.maxRetries ==>
            after.jobs[h] == job.(status := Pending, worker := None, attempts := job.attempts + 1,
                                  error := Some(event.message)))
      && (event.BodyFailed? && job.attempts >= job.maxRetries ==>
            after.jobs[h] == job.(status := Failed, attempts := job.attempts + 1, error := Some(event.message)))
  {
    hide Dropped, Requests;
  }

  /** Only a page write changes pages, and it sets one entity's sources to those its job held. */
  lemma WrittenPages(st: State, event: Event, worker: string)
    requires Enabled(st, event)
    ensures After(st, event, worker).pages
         == if event.PageWritten? then st.pages[st.holding.entity := st.holding.merged] else st.pages
  {
    hide Coalesced, MergedSources, IngestRows, Dropped, RequestsOf, Requests, RequestsFrom;
  }

  /** A crash before the body's first commit leaves the job pending; any crash leaves all rows as committed. */
  lemma CrashedRows(st: State, worker: string)
    ensures After(st, Crashed, worker).jobs == st.jobs && After(st, Crashed, worker).holding == Idle
    ensures After(st, Crashed, worker).rows == st.rows && After(st, Crashed, worker).pages == st.pages
  {
  }

  // ---- A source's summary over a run ----

  /** A summary of the source is pending, or the worker holds one. */
  ghost predicate AwaitsSummary(st: State, s: Id) {
    exists j: Id :: j < |st.jobs| && st.jobs[j].kind == SummarizeSource(Some(s))
      && (st.jobs[j].status.Pending? || Held(st, j))
  }

  /** A summary of the source finishes, fails for good, or crashes after its commit. */
  predicate EndsSummary(st: State, event: Event, s: Id) {
    && !st.holding.Idle? && st.holding.job < |st.jobs| && st.jobs[st.holding.job].kind == SummarizeSource(Some(s))
    && (|| event.SummaryDone?
        || (event.BodyFailed? && st.jobs[st.holding.job].attempts >= st.jobs[st.holding.job].maxRetries)
        || (event.Crashed? && st.holding.Summarizing?))
  }

  lemma StepKeepsSummary(st: State, event: Event, worker: string, s: Id)
    requires Inv(st) && Enabled(st, event) && AwaitsSummary(st, s)
    ensures AwaitsSummary(After(st, event, worker), s) || EndsSummary(st, event, s)
  {
    hide RowsOk, SpawnOk, SpawnsExact, PagesOk, Conserved, MergedSources, Requests, RequestsOf, LinkedEntities;
    var after := After(st, event, worker);
    var j: Id :| j < |st.jobs| && st.jobs[j].kind == SummarizeSource(Some(s))
      && (st.jobs[j].status.Pending? || Held(st, j));
    if event.SummaryStarted? && st.jobs[st.holding.job].kind == st.jobs[j].kind {
      assert Held(after, st.holding.job) && after.jobs[st.holding.job].kind == SummarizeSource(Some(s));
    } else if !EndsSummary(st, event, s) {
      assert j < |after.jobs| && after.jobs[j].kind == st.jobs[j].kind;
      assert after.jobs[j].status.Pending? || Held(after, j);
    }
  }

  /** A source loses its pending summary only to a summary of that same source. */
  lemma {:induction false} SummaryIsNotLost(states: seq<State>, events: seq<Event>, worker: string, i: nat, k: nat,
                                            s: Id)
    requires Run(states, events, worker) && i <= k < |states| && AwaitsSummary(states[i], s)
    ensures AwaitsSummary(states[k], s) || exists m :: i <= m < k && EndsSummary(states[m], events[m], s)
    decreases k
  {
    hide *;
    if i == k {
    } else {
      SummaryIsNotLost(states, events, worker, i, k - 1, s);
      RunStep(states, events, worker, k);
      if AwaitsSummary(states[k - 1], s) {
        StepKeepsSummary(states[k - 1], events[k - 1], worker, s);
      }
    }
  }
}
