/** Consequences of the protocol: what never changes, and which jobs a crash
    leaves behind for good. */
module JobOutcomes {
  import opened JobProtocol
  import opened JobSafety

  /** From any state of a run to any later one, completed and failed jobs stay as they are. */
  lemma {:induction false} TerminalForever(states: seq<State>, events: seq<Event>, worker: string, i: nat, k: nat)
    requires Run(states, events, worker) && i <= k < |states|
    ensures Evolves(states[i].jobs, states[k].jobs)
    decreases k
  {
    hide After;
    hide Enabled;
    if i >= k {
    } else {
      TerminalForever(states, events, worker, i, k - 1);
      RunsAreSafe(states, events, worker, k - 1);
      assert Enabled(states[k - 1], events[k - 1]) && states[k - 1 + 1] == After(states[k - 1], events[k - 1], worker);
      StepKeepsJobs(states[k - 1], events[k - 1], worker);
      EvolvesComposes(states[i].jobs, states[k - 1].jobs, states[k].jobs);
    }
  }

  lemma EvolvesComposes(a: seq<Job>, b: seq<Job>, c: seq<Job>)
    requires Evolves(a, b) && Evolves(b, c)
    ensures Evolves(a, c)
  {
  }

  /** The same rows of job j, and the same spawned jobs. */
  ghost predicate SameIngest(before: State, after: State, j: Id) {
    && DoneIngest(before.jobs, j) && DoneIngest(after.jobs, j)
    && (forall r: ChunkRow :: r.job == j ==> (r in after.rows <==> r in before.rows))
    && j in before.spawned && j in after.spawned && after.spawned[j] == before.spawned[j]
  }

  lemma StepKeepsIngest(st: State, event: Event, worker: string, j: Id)
    requires Inv(st) && Enabled(st, event) && DoneIngest(st.jobs, j)
    ensures SameIngest(st, After(st, event, worker), j)
  {
    hide After, DoneIngest, JobsOk, RowsOk, SpawnOk, Conserved, IngestRows, LinkedEntities;
    StepDoneIngests(st, event, worker, j);
    IngestIsSelf(st, j);
    if event.IngestDone? {
      NewRows(st, event.outcomes);
      HeldIsNotDone(st, j);
      IngestTouchesHeld(st, event, worker);
    } else {
      OtherEventsSpawnNothing(st, event, worker);
    }
  }

  lemma IngestIsSelf(st: State, j: Id)
    requires Inv(st) && DoneIngest(st.jobs, j)
    ensures SameIngest(st, st, j)
  {
  }

  lemma HeldIsNotDone(st: State, j: Id)
    requires Inv(st) && st.holding.Running? && DoneIngest(st.jobs, j)
    ensures st.holding.job != j
  {
  }

  lemma IngestTouchesHeld(st: State, event: Event, worker: string)
    requires Enabled(st, event) && event.IngestDone?
    ensures After(st, event, worker).rows == st.rows + IngestRows(st, event.outcomes)
    ensures After(st, event, worker).spawned == st.spawned[st.holding.job := Spawn(|st.jobs|, event.entities)]
  {
  }

  lemma SameIngestComposes(a: State, b: State, c: State, j: Id)
    requires SameIngest(a, b, j) && SameIngest(b, c, j)
    ensures SameIngest(a, c, j) && DoneIngest(c.jobs, j)
  {
    hide DoneIngest;
  }

  lemma RunStep(states: seq<State>, events: seq<Event>, worker: string, k: nat)
    requires Run(states, events, worker) && 0 < k < |states|
    ensures |events| == |states| - 1 && Inv(states[k - 1])
    ensures Enabled(states[k - 1], events[k - 1]) && states[k] == After(states[k - 1], events[k - 1], worker)
  {
    hide After, Enabled, Inv;
    RunsAreSafe(states, events, worker, k - 1);
    assert Enabled(states[k - 1], events[k - 1]) && states[k - 1 + 1] == After(states[k - 1], events[k - 1], worker);
  }

  /** What a completed ingest committed is never added to, by any later event of the run. */
  lemma {:induction false} IngestIsFinal(states: seq<State>, events: seq<Event>, worker: string, i: nat, k: nat, j: Id)
    requires Run(states, events, worker) && i <= k < |states| && DoneIngest(states[i].jobs, j)
    ensures DoneIngest(states[k].jobs, j) && SameIngest(states[i], states[k], j)
    decreases k
  {
    hide *;
    if i == k {
      RunsAreSafe(states, events, worker, i);
      IngestIsSelf(states[i], j);
    } else {
      IngestIsFinal(states, events, worker, i, k - 1, j);
      RunStep(states, events, worker, k);
      StepKeepsIngest(states[k - 1], events[k - 1], worker, j);
      SameIngestComposes(states[i], states[k - 1], states[k], j);
    }
  }

  // ---- Jobs left in processing ----

  predicate Held(st: State, j: Id) { !st.holding.Idle? && st.holding.job == j }

  ghost predicate Stranded(st: State, j: Id) { j < |st.jobs| && st.jobs[j].status.Processing? && !Held(st, j) }

  lemma StaysStranded(st: State, event: Event, worker: string, j: Id)
    requires Inv(st) && Enabled(st, event) && Stranded(st, j)
    ensures Stranded(After(st, event, worker), j) && After(st, event, worker).jobs[j] == st.jobs[j]
  {
  }

  /** A job that is processing without being held is never touched again in the run: nothing reclaims it. */
  lemma {:induction false} StrandedForever(states: seq<State>, events: seq<Event>, worker: string, i: nat, k: nat,
                                           j: Id)
    requires Run(states, events, worker) && i <= k < |states| && Stranded(states[i], j)
    ensures Stranded(states[k], j) && states[k].jobs[j] == states[i].jobs[j]
    decreases k
  {
    if i >= k {
    } else {
      StrandedForever(states, events, worker, i, k - 1, j);
      RunStep(states, events, worker, k);
      hide After, Enabled, Inv, Run;
      StaysStranded(states[k - 1], events[k - 1], worker, j);
    }
  }

  /** A crash strands the held job exactly when its body had already committed. */
  lemma CrashStrands(st: State, worker: string)
    requires Inv(st) && !st.holding.Idle?
    ensures var after := After(st, Crashed, worker);
      after.jobs[st.holding.job].status.Processing? <==> st.holding.Synthesizing? || st.holding.Summarizing?
    ensures var after := After(st, Crashed, worker);
      st.holding.Running? ==> after.jobs == st.jobs && Claimable(after.jobs[st.holding.job])
  {
  }

  lemma HeldOnlyStep(st: State, event: Event, worker: string, j: Id)
    requires Inv(st) && Enabled(st, event) && (event.Crashed? ==> st.holding.Idle? || st.holding.Running?)
    requires j < |st.jobs| && st.jobs[j].status.Processing? ==> Held(st, j)
    ensures var after := After(st, event, worker);
      j < |after.jobs| && after.jobs[j].status.Processing? ==> Held(after, j)
  {
    hide RowsOk, SpawnOk, SpawnsExact, PagesOk, Conserved, MergedSources, RequestsOf, LinkedEntities;
  }

  /** Without such crashes, the processing jobs are the held one, if any. */
  lemma {:induction false} ProcessingIsHeld(states: seq<State>, events: seq<Event>, worker: string, i: nat, j: Id)
    requires Run(states, events, worker) && i < |states|
    requires forall k :: 0 <= k < i && events[k].Crashed? ==> states[k].holding.Idle? || states[k].holding.Running?
    requires j < |states[i].jobs| && states[i].jobs[j].status.Processing?
    ensures Held(states[i], j)
  {
    hide After, Enabled, Inv, Held;
    if i == 0 {
    } else {
      RunStep(states, events, worker, i);
      if j < |states[i - 1].jobs| && states[i - 1].jobs[j].status.Processing? {
        ProcessingIsHeld(states, events, worker, i - 1, j);
      }
      HeldOnlyStep(states[i - 1], events[i - 1], worker, j);
    }
  }
}
