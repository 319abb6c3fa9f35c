/** What becomes of synthesis requests over runs: where a request can be, which
    events take it from the queue, and what a page keeps of those it recorded. */
module JobRequests {
  import opened Sequences
  import opened JobProtocol
  import opened JobSafety
  import opened JobOutcomes

  // ---- What a page holds ----

  /** The event writes the page of entity e. */
  predicate WritesPage(st: State, event: Event, e: Id) {
    event.PageWritten? && st.holding.Synthesizing? && st.holding.entity == e
  }

  /** The event writes request q into its entity's page. */
  predicate WritesRequest(st: State, event: Event, q: Request) {
    WritesPage(st, event, q.entity) && q.source in st.holding.merged
  }

  predicate OnPage(st: State, q: Request) { q.entity in st.pages && q.source in st.pages[q.entity] }

  lemma StepPages(st: State, event: Event, worker: string, q: Request)
    requires Enabled(st, event)
    ensures var after := After(st, event, worker);
      && (q in after.recorded <==> q in st.recorded || WritesRequest(st, event, q))
      && (OnPage(after, q) <==> if WritesPage(st, event, q.entity) then WritesRequest(st, event, q) else OnPage(st, q))
  {
    hide RequestsOf, Dropped, Image, Coalesced, MergedSources, LinkedEntities, IngestRows, Distinct;
  }

  /** Write m put q on its page, and no later write before k took it off again. */
  ghost predicate LastsSince(states: seq<State>, events: seq<Event>, m: nat, k: nat, q: Request)
    requires m < k <= |events| <= |states|
  {
    && WritesRequest(states[m], events[m], q)
    && forall n :: m < n < k && WritesPage(states[n], events[n], q.entity) ==> WritesRequest(states[n], events[n], q)
  }

  /** A request is recorded exactly when some write held it. */
  lemma {:induction false} RecordedExactly(states: seq<State>, events: seq<Event>, worker: string, k: nat, q: Request)
    requires Run(states, events, worker) && k < |states|
    ensures q in states[k].recorded <==> exists m :: 0 <= m < k && WritesRequest(states[m], events[m], q)
  {
    hide After, Enabled, Inv, WritesRequest;
    if k == 0 {
    } else {
      RecordedExactly(states, events, worker, k - 1, q);
      RunStep(states, events, worker, k);
      StepPages(states[k - 1], events[k - 1], worker, q);
    }
  }

  ghost predicate Lasts(states: seq<State>, events: seq<Event>, k: nat, q: Request)
    requires k <= |events| <= |states|
  {
    exists m :: 0 <= m < k && LastsSince(states, events, m, k, q)
  }

  /** A request is on its page exactly when some write held it and no later write of the page left it out. */
  lemma {:induction false} OnPageExactly(states: seq<State>, events: seq<Event>, worker: string, k: nat, q: Request)
    requires Run(states, events, worker) && k < |states|
    ensures OnPage(states[k], q) <==> Lasts(states, events, k, q)
  {
    hide After, Enabled, Inv, WritesRequest, WritesPage, LastsSince;
    if k == 0 {
    } else {
      OnPageExactly(states, events, worker, k - 1, q);
      RunStep(states, events, worker, k);
      StepPages(states[k - 1], events[k - 1], worker, q);
      LastsOneMore(states, events, k, q);
    }
  }

  lemma LastsOneMore(states: seq<State>, events: seq<Event>, k: nat, q: Request)
    requires 0 < k <= |events| <= |states|
    ensures Lasts(states, events, k, q)
       <==> if WritesPage(states[k - 1], events[k - 1], q.entity) then WritesRequest(states[k - 1], events[k - 1], q)
            else Lasts(states, events, k - 1, q)
  {
    var last := k - 1;
    if m :| 0 <= m < k && LastsSince(states, events, m, k, q) {
      if m < last {
        assert LastsSince(states, events, m, last, q);
      }
    }
    if WritesRequest(states[last], events[last], q) {
      assert LastsSince(states, events, last, k, q);
    } else if m :| 0 <= m < last && LastsSince(states, events, m, last, q) {
      if !WritesPage(states[last], events[last], q.entity) {
        assert LastsSince(states, events, m, k, q);
      }
    }
  }

  // ---- What takes a request from the queue ----

  /** Carried by a pending job other than job j. */
  ghost predicate Elsewhere(jobs: seq<Job>, j: Id, q: Request) {
    exists i :: 0 <= i < |jobs| && i != j && q in Carried(jobs[i])
  }

  /** The events after which q no longer waits, unless another job carries it: a page write, an omitted write,
      a crash, failure or release of a job that merged it, and the last failure of a job that carries it. */
  ghost predicate LeavesQueue(st: State, event: Event, q: Request)
    requires Enabled(st, event)
    requires !st.holding.Idle? ==> st.holding.job < |st.jobs|
  {
    if st.holding.Idle? || Elsewhere(st.jobs, st.holding.job, q) then false
    else
      var held := st.jobs[st.holding.job];
      var merged := if st.holding.Synthesizing? then Requests(st.holding.entity, st.holding.merged) else {};
      match event
      case PageWritten => q in merged
      case PageSkipped => q in merged
      case Crashed => q in merged
      case LockExhausted => q in merged && q !in RequestsOf(held)
      case BodyFailed(_) =>
        q in merged + Carried(held) && !(held.attempts < held.maxRetries && q in RequestsOf(held))
      case _ => false
  }

  lemma PendingSplit(jobs: seq<Job>, j: Id, q: Request)
    requires j < |jobs|
    ensures q in PendingRequests(jobs) <==> q in Carried(jobs[j]) || Elsewhere(jobs, j, q)
  {
    hide Carried;
  }

  lemma ElsewhereUpdate(jobs: seq<Job>, j: Id, job: Job, q: Request)
    requires j < |jobs|
    ensures Elsewhere(jobs[j := job], j, q) <==> Elsewhere(jobs, j, q)
  {
    hide Carried;
    var after := jobs[j := job];
    assert forall i :: 0 <= i < |jobs| && i != j ==> after[i] == jobs[i];
  }

  /** The waiting requests once the held job's row has been replaced and the worker is idle. */
  lemma WaitingWithout(st: State, after: State, job: Job, q: Request)
    requires !st.holding.Idle? && st.holding.job < |st.jobs|
    requires after.jobs == st.jobs[st.holding.job := job] && after.holding.Idle?
    ensures q in Waiting(after) <==> q in Carried(job) || Elsewhere(st.jobs, st.holding.job, q)
  {
    hide Carried, PendingRequests, Elsewhere;
    PendingSplit(after.jobs, st.holding.job, q);
    ElsewhereUpdate(st.jobs, st.holding.job, job, q);
  }

  lemma WaitingWith(st: State, q: Request)
    requires !st.holding.Idle? && st.holding.job < |st.jobs|
    ensures var merged := if st.holding.Synthesizing? then Requests(st.holding.entity, st.holding.merged) else {};
      q in Waiting(st) <==>
        q in merged || q in Carried(st.jobs[st.holding.job]) || Elsewhere(st.jobs, st.holding.job, q)
  {
    hide Carried, PendingRequests, Elsewhere;
    PendingSplit(st.jobs, st.holding.job, q);
  }

  predicate Ends(event: Event) {
    event.PageWritten? || event.PageSkipped? || event.SummaryDone? || event.BodyFailed? || event.LockExhausted?
  }

  /** The row an ending event leaves for the held job. */
  function EndedRow(held: Job, event: Event): Job
    requires Ends(event)
  {
    match event
    case BodyFailed(message) => FailedJob(held, message)
    case LockExhausted => ReleasedJob(held)
    case _ => CompletedJob(held)
  }

  lemma EndingStep(st: State, event: Event, worker: string)
    requires HoldingOk(st) && Enabled(st, event) && Ends(event)
    ensures !st.holding.Idle? && st.holding.job < |st.jobs|
    ensures var after := After(st, event, worker);
      after.jobs == st.jobs[st.holding.job := EndedRow(st.jobs[st.holding.job], event)] && after.holding.Idle?
  {
  }

  /** Every other event but a crash keeps everything waiting. */
  lemma WaitingGrows(st: State, event: Event, worker: string)
    requires JobsOk(st.jobs) && HoldingOk(st) && Enabled(st, event) && !Ends(event)
    requires event.Crashed? ==> !st.holding.Synthesizing?
    ensures Waiting(st) <= Waiting(After(st, event, worker))
  {
    hide PendingRequests, Requests, RequestsOf;
    match event
    case Enqueued(kind, maxRetries, scheduledAt, now) =>
      PendingAppend(st.jobs, [NewJob(kind, maxRetries, scheduledAt, now)]);
    case ClaimedNext(_) =>
    case IngestDone(outcomes, entities, now) =>
      IngestKeepsWaiting(st, outcomes, entities, now, worker);
    case CoalescedDuplicates =>
      CoalescingConserves(st.jobs, st.holding.job, worker);
    case SummaryStarted =>
      SummariesCarryNothing(st.jobs, st.holding.job, worker);
    case Crashed =>
  }

  /** An ingest's synthesis requests are waiting once it has committed, and nothing else stopped waiting. */
  lemma IngestKeepsWaiting(st: State, outcomes: seq<ChunkOutcome>, entities: seq<Id>, now: int, worker: string)
    requires HoldingOk(st) && Enabled(st, IngestDone(outcomes, entities, now))
    ensures Waiting(After(st, IngestDone(outcomes, entities, now), worker))
      == Waiting(st) + RequestsFrom(entities, st.jobs[st.holding.job].kind.source)
  {
    var j := st.holding.job;
    var source := st.jobs[j].kind.source;
    var updated := st.jobs[j := CompletedJob(Claimed(st.jobs[j], worker))];
    var synthesis := Image(SynthesisJob(source, now), entities);
    PendingUpdate(st.jobs, j, updated[j]);
    PendingAppend(updated, synthesis);
    PendingAppend(updated + synthesis, [SummaryJob(source, now)]);
    SpawnedRequests(source, now, entities);
    assert PendingRequests([SummaryJob(source, now)]) == {};
    assert Carried(st.jobs[j]) == {} && Carried(updated[j]) == {};
    hide PendingRequests, Carried, RequestsFrom, LinkedEntities;
  }

  lemma HeldBetweenCommits(st: State)
    requires HoldingOk(st) && st.holding.Synthesizing?
    ensures Carried(st.jobs[st.holding.job]) == {}
  {
  }

  /** Exactly which requests stop waiting, for every event. */
  lemma LossExactly(st: State, event: Event, worker: string, q: Request)
    requires JobsOk(st.jobs) && HoldingOk(st) && Enabled(st, event)
    ensures !st.holding.Idle? ==> st.holding.job < |st.jobs|
    ensures q in Waiting(st) && q !in Waiting(After(st, event, worker)) <==> LeavesQueue(st, event, q)
  {
    if Ends(event) {
      EndingLoss(st, event, worker, q);
    } else if event.Crashed? && st.holding.Synthesizing? {
      CrashLoss(st, worker, q);
    } else {
      WaitingGrows(st, event, worker);
      hide Waiting, After, JobsOk, Elsewhere;
    }
  }

  lemma EndingLoss(st: State, event: Event, worker: string, q: Request)
    requires JobsOk(st.jobs) && HoldingOk(st) && Enabled(st, event) && Ends(event)
    ensures !st.holding.Idle? && st.holding.job < |st.jobs|
    ensures q in Waiting(st) && q !in Waiting(After(st, event, worker)) <==> LeavesQueue(st, event, q)
  {
    hide Waiting, After, JobsOk, Elsewhere, RequestsOf, Requests;
    EndingStep(st, event, worker);
    var held := st.jobs[st.holding.job];
    WaitingWith(st, q);
    WaitingWithout(st, After(st, event, worker), EndedRow(held, event), q);
    if st.holding.Synthesizing? {
      HeldBetweenCommits(st);
    }
    assert RequestsOf(EndedRow(held, event)) == RequestsOf(held) by { SameRequests(held, event); }
  }

  lemma SameRequests(held: Job, event: Event)
    requires Ends(event)
    ensures RequestsOf(EndedRow(held, event)) == RequestsOf(held)
  {
  }

  lemma CrashLoss(st: State, worker: string, q: Request)
    requires HoldingOk(st) && st.holding.Synthesizing?
    ensures st.holding.job < |st.jobs|
    ensures q in Waiting(st) && q !in Waiting(After(st, Crashed, worker)) <==> LeavesQueue(st, Crashed, q)
  {
    hide Elsewhere, RequestsOf, Requests, PendingRequests, Carried;
    WaitingWith(st, q);
    HeldBetweenCommits(st);
    WaitingWithout(st, After(st, Crashed, worker), st.jobs[st.holding.job], q);
    assert st.jobs[st.holding.job := st.jobs[st.holding.job]] == st.jobs;
  }

  /** Once duplicates are coalesced, a failure or release loses exactly the requests that were
      merged in, that the job does not carry itself back to the queue, and that nobody asked for again. */
  lemma LossAfterCoalescing(st: State, event: Event, worker: string, q: Request)
    requires Inv(st) && Enabled(st, event) && st.holding.Synthesizing?
    requires event.BodyFailed? || event.LockExhausted?
    ensures var after := After(st, event, worker);
      q in Waiting(st) && q !in Waiting(after)
      <==> && q in Requests(st.holding.entity, st.holding.merged)
           && q !in PendingRequests(st.jobs)
           && !(after.jobs[st.holding.job].status.Pending? && q in RequestsOf(st.jobs[st.holding.job]))
  {
    var j := st.holding.job;
    var after := After(st, event, worker);
    PendingUpdate(st.jobs, j, after.jobs[j]);
    PendingCarried(after.jobs, j);
    hide PendingRequests;
  }

  // ---- Runs that give up nothing ----

  /** Events that give up no request: bodies may fail before their first commit while retries last. */
  ghost predicate Gentle(st: State, event: Event) {
    && !event.PageSkipped? && !event.LockExhausted?
    && (event.Crashed? ==> !st.holding.Synthesizing?)
    && (event.BodyFailed? && !st.holding.Idle? ==>
          && !st.holding.Synthesizing? && st.holding.job < |st.jobs|
          && st.jobs[st.holding.job].attempts < st.jobs[st.holding.job].maxRetries)
  }

  /** In gentle runs every request ever made was in a page write or is still waiting. */
  lemma {:induction false} GentleRunsLoseNothing(states: seq<State>, events: seq<Event>, worker: string, i: nat)
    requires Run(states, events, worker) && i < |states|
    requires forall k :: 0 <= k < i ==> Gentle(states[k], events[k])
    ensures states[i].abandoned == {}
    ensures states[i].requested == states[i].recorded + Waiting(states[i])
  {
    RunsAreSafe(states, events, worker, i);
    hide Run, Inv;
    if i == 0 {
      assert states[0] == Empty && Conserved(states[0]) by { RunStarts(states, events, worker); }
    } else {
      GentleRunsLoseNothing(states, events, worker, i - 1);
      RunStep(states, events, worker, i);
      assert Gentle(states[i - 1], events[i - 1]);
      InvConserves(states[i - 1]);
      InvConserves(states[i]);
      GentleGivesUpNothing(states[i - 1], events[i - 1], worker);
    }
  }

  lemma RunStarts(states: seq<State>, events: seq<Event>, worker: string)
    requires Run(states, events, worker)
    ensures states[0] == Empty && Conserved(states[0])
  {
    assert PendingRequests([]) == {};
  }

  lemma InvConserves(st: State)
    requires Inv(st)
    ensures Conserved(st) && JobsOk(st.jobs) && HoldingOk(st)
  {
  }

  lemma GentleGivesUpNothing(st: State, event: Event, worker: string)
    requires HoldingOk(st) && Enabled(st, event) && Gentle(st, event)
    ensures After(st, event, worker).abandoned == st.abandoned
  {
    hide MergedSources, Coalesced, LinkedEntities, Image, RequestsFrom;
  }

  /** The requests an event makes. */
  function MadeBy(st: State, event: Event): set<Request> {
    match event
    case Enqueued(kind, maxRetries, scheduledAt, now) => RequestsOf(NewJob(kind, maxRetries, scheduledAt, now))
    case IngestDone(_, entities, _) =>
      if st.holding.Running? && st.holding.job < |st.jobs| && st.jobs[st.holding.job].kind.Ingest?
      then RequestsFrom(entities, st.jobs[st.holding.job].kind.source) else {}
    case _ => {}
  }

  /** Whatever an event requests is waiting after it, and nothing else counts as requested. */
  lemma MadeRequestsWait(st: State, event: Event, worker: string)
    requires HoldingOk(st) && Enabled(st, event)
    ensures After(st, event, worker).requested == st.requested + MadeBy(st, event)
    ensures MadeBy(st, event) <= Waiting(After(st, event, worker))
  {
    hide RequestsFrom, LinkedEntities, MergedSources, Coalesced, Dropped;
    match event
    case Enqueued(kind, maxRetries, scheduledAt, now) =>
      PendingCarried(st.jobs + [NewJob(kind, maxRetries, scheduledAt, now)], |st.jobs|);
    case IngestDone(outcomes, entities, now) =>
      IngestKeepsWaiting(st, outcomes, entities, now, worker);
    case _ =>
  }

  /** A gentle event takes a request from the queue only by writing it into its page. */
  lemma GentleStep(st: State, event: Event, worker: string, q: Request)
    requires JobsOk(st.jobs) && HoldingOk(st) && Enabled(st, event) && Gentle(st, event) && q in Waiting(st)
    ensures q in Waiting(After(st, event, worker)) || WritesRequest(st, event, q)
  {
    LossExactly(st, event, worker, q);
    hide Waiting, After, JobsOk, Elsewhere;
  }

  /** In a gentle stretch of a run, a waiting request waits on until a page write holds it. */
  lemma {:induction false} WaitsUntilWritten(states: seq<State>, events: seq<Event>, worker: string, i: nat, k: nat,
                                             q: Request)
    requires Run(states, events, worker) && i <= k < |states| && q in Waiting(states[i])
    requires forall m :: i <= m < k ==> Gentle(states[m], events[m])
    ensures q in Waiting(states[k]) || exists m :: i <= m < k && WritesRequest(states[m], events[m], q)
    decreases k
  {
    hide Run, Inv, Waiting, Gentle, WritesRequest, After, Enabled;
    RunHasEvents(states, events, worker);
    if i == k {
    } else {
      WaitsUntilWritten(states, events, worker, i, k - 1, q);
      RunStep(states, events, worker, k);
      if q in Waiting(states[k - 1]) {
        InvConserves(states[k - 1]);
        GentleStep(states[k - 1], events[k - 1], worker, q);
      }
    }
  }

  lemma RunHasEvents(states: seq<State>, events: seq<Event>, worker: string)
    requires Run(states, events, worker)
    ensures |states| == |events| + 1
  {
  }

  /** Every request an event makes is, as long as the run stays gentle, waiting or in a page write since. */
  lemma RequestsAreServed(states: seq<State>, events: seq<Event>, worker: string, i: nat, k: nat, q: Request)
    requires Run(states, events, worker) && |states| == |events| + 1 && i < k < |states|
    requires forall m :: i < m < k ==> Gentle(states[m], events[m])
    requires q in MadeBy(states[i], events[i])
    ensures q in Waiting(states[k]) || exists m :: i < m < k && WritesRequest(states[m], events[m], q)
  {
    hide Inv, Waiting, Gentle, WritesRequest, After, Enabled, MadeBy, HoldingOk;
    RunStep(states, events, worker, i + 1);
    InvConserves(states[i]);
    MadeRequestsWait(states[i], events[i], worker);
    WaitsUntilWritten(states, events, worker, i + 1, k, q);
  }

  // ---- Two runs that disappoint ----

  // Two requests for one page, a lock that stays busy once, a retry: the second request is gone.

  const FIRST := NewJob(SynthesizeEntity(Some(7), {1}), 3, None, 0)
  const SECOND := NewJob(SynthesizeEntity(Some(7), {2}), 3, None, 1)
  const ASKED := {Request(7, 1), Request(7, 2)}

  function LosingEvents(): seq<Event> {
    [Enqueued(FIRST.kind, 3, None, 0), Enqueued(SECOND.kind, 3, None, 1), ClaimedNext(0), CoalescedDuplicates,
     LockExhausted, ClaimedNext(0), CoalescedDuplicates, PageWritten]
  }

  function LosingStates(worker: string): seq<State> {
    var done := CompletedJob(SECOND);
    [Empty,
     State([FIRST], {}, map[], Idle, map[], {Request(7, 1)}, {}, {}),
     State([FIRST, SECOND], {}, map[], Idle, map[], ASKED, {}, {}),
     State([FIRST, SECOND], {}, map[], Running(0), map[], ASKED, {}, {}),
     State([Claimed(FIRST, worker), done], {}, map[], Synthesizing(0, 7, {1, 2}), map[], ASKED, {}, {}),
     State([FIRST, done], {}, map[], Idle, map[], ASKED, {}, {Request(7, 2)}),
     State([FIRST, done], {}, map[], Running(0), map[], ASKED, {}, {Request(7, 2)}),
     State([Claimed(FIRST, worker), done], {}, map[], Synthesizing(0, 7, {1}), map[], ASKED, {}, {Request(7, 2)}),
     State([CompletedJob(Claimed(FIRST, worker)), done], {}, map[7 := {1}], Idle, map[], ASKED, {Request(7, 1)},
           {Request(7, 2)})]
  }

  lemma LosingCoalescing(worker: string)
    ensures Coalesced([FIRST, SECOND], 0, worker) == [Claimed(FIRST, worker), CompletedJob(SECOND)]
    ensures MergedSources([FIRST, SECOND], 0) == {1, 2}
    ensures Coalesced([FIRST, CompletedJob(SECOND)], 0, worker) == [Claimed(FIRST, worker), CompletedJob(SECOND)]
    ensures MergedSources([FIRST, CompletedJob(SECOND)], 0) == {1}
  {
    var both := [FIRST, SECOND];
    assert Duplicate(both, 0, 1) && 1 in SourcesOf(both[0]) && 2 in SourcesOf(both[1]);
    var one := [FIRST, CompletedJob(SECOND)];
    assert !Duplicate(one, 0, 1) && 1 in SourcesOf(one[0]);
  }

  lemma LosingStep(worker: string, i: nat)
    requires i < 8
    ensures Enabled(LosingStates(worker)[i], LosingEvents()[i])
    ensures LosingStates(worker)[i + 1] == After(LosingStates(worker)[i], LosingEvents()[i], worker)
  {
    LosingCoalescing(worker);
    assert Requests(7, {1}) == {Request(7, 1)} && Requests(7, {2}) == {Request(7, 2)} && Requests(7, {1, 2}) == ASKED;
    hide Coalesced;
    hide MergedSources;
    hide Requests;
  }

  /** A request merged into a job that is then released is neither waiting nor in the page. */
  lemma ReleaseLosesMergedRequests(worker: string)
    ensures Run(LosingStates(worker), LosingEvents(), worker)
    ensures var last := LosingStates(worker)[8];
      && Request(7, 2) in last.requested && last.pages == map[7 := {1}]
      && last.recorded == {Request(7, 1)} && Waiting(last) == {}
  {
    forall i | 0 <= i < 8
      ensures Enabled(LosingStates(worker)[i], LosingEvents()[i])
      ensures LosingStates(worker)[i + 1] == After(LosingStates(worker)[i], LosingEvents()[i], worker)
    {
      LosingStep(worker, i);
    }
  }

  // Two requests for one page, served one after the other: the page remembers the second alone.

  function OverwritingEvents(): seq<Event> {
    [Enqueued(FIRST.kind, 3, None, 0), ClaimedNext(0), CoalescedDuplicates, PageWritten,
     Enqueued(SECOND.kind, 3, None, 1), ClaimedNext(1), CoalescedDuplicates, PageWritten]
  }

  function OverwritingStates(worker: string): seq<State> {
    var claimed, done := Claimed(FIRST, worker), CompletedJob(Claimed(FIRST, worker));
    var one, page := {Request(7, 1)}, map[7 := {1}];
    [Empty,
     State([FIRST], {}, map[], Idle, map[], one, {}, {}),
     State([FIRST], {}, map[], Running(0), map[], one, {}, {}),
     State([claimed], {}, map[], Synthesizing(0, 7, {1}), map[], one, {}, {}),
     State([done], {}, page, Idle, map[], one, one, {}),
     State([done, SECOND], {}, page, Idle, map[], ASKED, one, {}),
     State([done, SECOND], {}, page, Running(1), map[], ASKED, one, {}),
     State([done, Claimed(SECOND, worker)], {}, page, Synthesizing(1, 7, {2}), map[], ASKED, one, {}),
     State([done, CompletedJob(Claimed(SECOND, worker))], {}, map[7 := {2}], Idle, map[], ASKED, ASKED, {})]
  }

  lemma OverwritingCoalescing(worker: string)
    ensures Coalesced([FIRST], 0, worker) == [Claimed(FIRST, worker)]
    ensures MergedSources([FIRST], 0) == {1}
    ensures var jobs := [CompletedJob(Claimed(FIRST, worker)), SECOND];
      Coalesced(jobs, 1, worker) == [jobs[0], Claimed(SECOND, worker)] && MergedSources(jobs, 1) == {2}
  {
    assert 1 in SourcesOf([FIRST][0]);
    var jobs := [CompletedJob(Claimed(FIRST, worker)), SECOND];
    assert !Duplicate(jobs, 1, 0) && 2 in SourcesOf(jobs[1]);
  }

  lemma OverwritingStep(worker: string, i: nat)
    requires i < 8
    ensures Enabled(OverwritingStates(worker)[i], OverwritingEvents()[i])
    ensures OverwritingStates(worker)[i + 1] == After(OverwritingStates(worker)[i], OverwritingEvents()[i], worker)
    ensures Gentle(OverwritingStates(worker)[i], OverwritingEvents()[i])
  {
    OverwritingCoalescing(worker);
    assert Requests(7, {1}) == {Request(7, 1)} && Requests(7, {2}) == {Request(7, 2)};
    assert {Request(7, 1)} + {Request(7, 2)} == ASKED;
    hide Coalesced;
    hide MergedSources;
    hide Requests;
  }

  /** A gentle run after which a request that was served is neither waiting nor on its page. */
  lemma LaterWriteForgetsSource(worker: string)
    ensures Run(OverwritingStates(worker), OverwritingEvents(), worker)
    ensures forall i :: 0 <= i < 8 ==> Gentle(OverwritingStates(worker)[i], OverwritingEvents()[i])
    ensures var last := OverwritingStates(worker)[8];
      && Request(7, 1) in last.recorded && !OnPage(last, Request(7, 1))
      && last.pages == map[7 := {2}] && Waiting(last) == {}
  {
    forall i | 0 <= i < 8
      ensures Enabled(OverwritingStates(worker)[i], OverwritingEvents()[i])
      ensures OverwritingStates(worker)[i + 1] == After(OverwritingStates(worker)[i], OverwritingEvents()[i], worker)
      ensures Gentle(OverwritingStates(worker)[i], OverwritingEvents()[i])
    {
      OverwritingStep(worker, i);
    }
  }
}
