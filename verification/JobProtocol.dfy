/** The job queue and its single worker as a protocol of committed
    transactions. A claim stays uncommitted until the body first commits, so a
    crash before that returns the job to the queue by itself. Job ids are
    positions in the table, which only grows. */
module JobProtocol {
  import opened Sequences

  type Id = nat

  datatype Status = Pending | Processing | Completed | Failed

  datatype Kind =
    | Ingest(source: Id)
    | SynthesizeEntity(target: Option<Id>, sources: set<Id>)
    | SummarizeSource(summarized: Option<Id>)
    | UnknownKind

  datatype Job = Job(
    kind: Kind,
    status: Status,
    attempts: nat,
    maxRetries: nat,
    scheduledAt: Option<int>,
    createdAt: int,
    worker: Option<string>,
    error: Option<string>)

  const DEFAULT_RETRIES: nat := 3

  // ---- What the queue functions do to one row ----

  function NewJob(kind: Kind, maxRetries: nat, scheduledAt: Option<int>, now: int): Job {
    Job(kind, Pending, 0, maxRetries, scheduledAt, now, None, None)
  }

  function Claimed(job: Job, worker: string): Job { job.(status := Processing, worker := Some(worker)) }

  function CompletedJob(job: Job): Job { job.(status := Completed) }

  function ReleasedJob(job: Job): Job { job.(status := Pending, worker := None) }

  function FailedJob(job: Job, message: string): Job {
    var counted := job.(attempts := job.attempts + 1, error := Some(message));
    if counted.attempts <= job.maxRetries then counted.(status := Pending, worker := None)
    else counted.(status := Failed)
  }

  // ---- States ----

  /** A chunk an ingest committed, with the entities linked to it. */
  datatype ChunkRow = ChunkRow(job: Id, attempt: nat, source: Id, index: nat, succeeded: bool, entities: set<Id>)

  datatype ChunkOutcome = ChunkOutcome(succeeded: bool, entities: set<Id>)

  /** A source waiting to be synthesized into an entity's page. */
  datatype Request = Request(entity: Id, source: Id)

  /** What the worker is doing; a job held after its first commit is visible as processing. */
  datatype Holding =
    | Idle
    | Running(job: Id)
    | Synthesizing(job: Id, entity: Id, merged: set<Id>)
    | Summarizing(job: Id)

  /** The synthesis jobs an ingest spawned: one per listed entity, from first on, then the summary. */
  datatype Spawn = Spawn(first: Id, entities: seq<Id>)

  /** The committed tables, the worker, and the history the properties speak about. */
  datatype State = State(
    jobs: seq<Job>,
    rows: set<ChunkRow>,
    pages: map<Id, set<Id>>,
    holding: Holding,
    spawned: map<Id, Spawn>,
    requested: set<Request>,
    recorded: set<Request>,
    abandoned: set<Request>)

  const Empty := State([], {}, map[], Idle, map[], {}, {}, {})

  function Requests(entity: Id, sources: set<Id>): set<Request> { set s | s in sources :: Request(entity, s) }

  function RequestsFrom(entities: seq<Id>, source: Id): set<Request> { set e | e in entities :: Request(e, source) }

  function RequestsOf(job: Job): set<Request> {
    if !job.kind.SynthesizeEntity? || job.kind.target.None? then {}
    else Requests(job.kind.target.value, job.kind.sources)
  }

  /** The requests one row puts in the queue. */
  function Carried(job: Job): set<Request> { if job.status.Pending? then RequestsOf(job) else {} }

  function PendingRequests(jobs: seq<Job>): set<Request> {
    set i, q | 0 <= i < |jobs| && q in Carried(jobs[i]) :: q
  }

  function Waiting(st: State): set<Request> {
    PendingRequests(st.jobs) + if st.holding.Synthesizing? then Requests(st.holding.entity, st.holding.merged) else {}
  }

  // ---- The claim ----

  predicate Claimable(job: Job) { job.status.Pending? && job.attempts <= job.maxRetries }

  /** ORDER BY scheduled_at NULLS FIRST, created_at */
  predicate Before(a: Job, b: Job) {
    match (a.scheduledAt, b.scheduledAt)
    case (None, Some(_)) => true
    case (Some(_), None) => false
    case (None, None) => a.createdAt < b.createdAt
    case (Some(s), Some(t)) => s < t || (s == t && a.createdAt < b.createdAt)
  }

  predicate IsNext(jobs: seq<Job>, j: Id) {
    && j < |jobs| && Claimable(jobs[j])
    && forall i | 0 <= i < |jobs| && Claimable(jobs[i]) :: !Before(jobs[i], jobs[j])
  }

  // ---- Bodies ----

  /** Another pending synthesis of the same entity. */
  predicate Duplicate(jobs: seq<Job>, j: Id, i: Id)
    requires j < |jobs| && i < |jobs|
  {
    i != j && jobs[i].status.Pending? && jobs[i].kind.SynthesizeEntity? && jobs[j].kind.SynthesizeEntity?
    && jobs[i].kind.target == jobs[j].kind.target
  }

  /** Another pending summary of the same source. */
  predicate DuplicateSummary(jobs: seq<Job>, j: Id, i: Id)
    requires j < |jobs| && i < |jobs|
  {
    i != j && jobs[i].status.Pending? && jobs[i].kind.SummarizeSource? && jobs[i].kind == jobs[j].kind
  }

  function Coalesced(jobs: seq<Job>, j: Id, worker: string): (r: seq<Job>)
    requires j < |jobs|
    ensures |r| == |jobs|
  {
    seq(|jobs|, i requires 0 <= i < |jobs| =>
      if i == j then Claimed(jobs[i], worker)
      else if Duplicate(jobs, j, i) || DuplicateSummary(jobs, j, i) then CompletedJob(jobs[i])
      else jobs[i])
  }

  function SourcesOf(job: Job): set<Id> { if job.kind.SynthesizeEntity? then job.kind.sources else {} }

  function MergedSources(jobs: seq<Job>, j: Id): set<Id>
    requires j < |jobs|
  {
    set i, s | 0 <= i < |jobs| && (i == j || Duplicate(jobs, j, i)) && s in SourcesOf(jobs[i]) :: s
  }

  function RowsOf(job: Id, attempt: nat, source: Id, outcomes: seq<ChunkOutcome>): set<ChunkRow> {
    set i | 0 <= i < |outcomes| :: ChunkRow(job, attempt, source, i, outcomes[i].succeeded, outcomes[i].entities)
  }

  /** SELECT DISTINCT entity_id over every chunk of the source. */
  function LinkedEntities(rows: set<ChunkRow>, source: Id): set<Id> {
    set r, e | r in rows && r.source == source && e in r.entities :: e
  }

  function SynthesisJob(source: Id, now: int): Id -> Job {
    (e: Id) => NewJob(SynthesizeEntity(Some(e), {source}), DEFAULT_RETRIES, None, now)
  }

  function SummaryJob(source: Id, now: int): Job { NewJob(SummarizeSource(Some(source)), DEFAULT_RETRIES, None, now) }

  // ---- Events ----

  datatype Event =
    | Enqueued(kind: Kind, maxRetries: nat, scheduledAt: Option<int>, now: int)
    | ClaimedNext(job: Id)
    | IngestDone(outcomes: seq<ChunkOutcome>, entities: seq<Id>, now: int)
    | CoalescedDuplicates
    | PageWritten
    | PageSkipped
    | SummaryStarted
    | SummaryDone
    | BodyFailed(message: string)
    | LockExhausted
    | Crashed

  /** When an event can happen. */
  ghost predicate Enabled(st: State, event: Event) {
    match event
    case Enqueued(_, _, _, _) => true
    case ClaimedNext(j) => st.holding.Idle? && IsNext(st.jobs, j)
    case IngestDone(outcomes, entities, _) =>
      && st.holding.Running? && st.holding.job < |st.jobs| && st.jobs[st.holding.job].kind.Ingest?
      && (exists o :: o in outcomes && o.succeeded)
      && Distinct(entities)
      && (forall e :: e in entities <==>
            e in LinkedEntities(st.rows + IngestRows(st, outcomes), st.jobs[st.holding.job].kind.source))
    case CoalescedDuplicates =>
      && st.holding.Running? && st.holding.job < |st.jobs|
      && st.jobs[st.holding.job].kind.SynthesizeEntity? && st.jobs[st.holding.job].kind.target.Some?
    case PageWritten => st.holding.Synthesizing? && st.holding.job < |st.jobs|
    case PageSkipped => st.holding.Synthesizing? && st.holding.job < |st.jobs|
    case SummaryStarted =>
      && st.holding.Running? && st.holding.job < |st.jobs|
      && st.jobs[st.holding.job].kind.SummarizeSource? && st.jobs[st.holding.job].kind.summarized.Some?
    case SummaryDone => st.holding.Summarizing? && st.holding.job < |st.jobs|
    case BodyFailed(_) => !st.holding.Idle? && st.holding.job < |st.jobs|
    case LockExhausted => st.holding.Synthesizing? && st.holding.job < |st.jobs|
    case Crashed => true
  }

  function IngestRows(st: State, outcomes: seq<ChunkOutcome>): set<ChunkRow>
    requires st.holding.Running? && st.holding.job < |st.jobs| && st.jobs[st.holding.job].kind.Ingest?
  {
    var job := st.jobs[st.holding.job];
    RowsOf(st.holding.job, job.attempts, job.kind.source, outcomes)
  }

  /** The requests a failure, release or crash of the held job drops: what it merged in but
      does not carry itself, and what it carries itself unless it goes back to the queue. */
  function Dropped(st: State, requeued: bool): set<Request>
    requires !st.holding.Idle? && st.holding.job < |st.jobs|
  {
    var own := RequestsOf(st.jobs[st.holding.job]);
    var merged := if st.holding.Synthesizing? then Requests(st.holding.entity, st.holding.merged) else own;
    merged - if requeued then own else {}
  }

  function WithJob(st: State, job: Job): State
    requires !st.holding.Idle? && st.holding.job < |st.jobs|
  {
    st.(jobs := st.jobs[st.holding.job := job], holding := Idle)
  }

  /** The committed effect of an event. */
  ghost function After(st: State, event: Event, worker: string): State
    requires Enabled(st, event)
  {
    match event
    case Enqueued(kind, maxRetries, scheduledAt, now) =>
      var job := NewJob(kind, maxRetries, scheduledAt, now);
      st.(jobs := st.jobs + [job], requested := st.requested + RequestsOf(job))
    case ClaimedNext(j) =>
      st.(holding := Running(j))
    case IngestDone(outcomes, entities, now) =>
      var j := st.holding.job;
      var source := st.jobs[j].kind.source;
      st.(jobs := st.jobs[j := CompletedJob(Claimed(st.jobs[j], worker))]
                  + Image(SynthesisJob(source, now), entities) + [SummaryJob(source, now)],
          rows := st.rows + IngestRows(st, outcomes),
          spawned := st.spawned[j := Spawn(|st.jobs|, entities)],
          requested := st.requested + RequestsFrom(entities, source),
          holding := Idle)
    case CoalescedDuplicates =>
      var j := st.holding.job;
      st.(jobs := Coalesced(st.jobs, j, worker),
          holding := Synthesizing(j, st.jobs[j].kind.target.value, MergedSources(st.jobs, j)))
    case PageWritten =>
      WithJob(st.(pages := st.pages[st.holding.entity := st.holding.merged],
                  recorded := st.recorded + Requests(st.holding.entity, st.holding.merged)),
              CompletedJob(st.jobs[st.holding.job]))
    case PageSkipped =>
      WithJob(st.(abandoned := st.abandoned + Requests(st.holding.entity, st.holding.merged)),
              CompletedJob(st.jobs[st.holding.job]))
    case SummaryStarted =>
      st.(jobs := Coalesced(st.jobs, st.holding.job, worker), holding := Summarizing(st.holding.job))
    case SummaryDone =>
      WithJob(st, CompletedJob(st.jobs[st.holding.job]))
    case BodyFailed(message) =>
      var job := FailedJob(st.jobs[st.holding.job], message);
      WithJob(st.(abandoned := st.abandoned + Dropped(st, job.status.Pending?)), job)
    case LockExhausted =>
      WithJob(st.(abandoned := st.abandoned + Dropped(st, true)), ReleasedJob(st.jobs[st.holding.job]))
    case Crashed =>
      if st.holding.Synthesizing? then
        st.(abandoned := st.abandoned + Requests(st.holding.entity, st.holding.merged), holding := Idle)
      else st.(holding := Idle)
  }

  ghost predicate Run(states: seq<State>, events: seq<Event>, worker: string) {
    && |states| == |events| + 1 && states[0] == Empty
    && forall i :: 0 <= i < |events| ==>
      Enabled(states[i], events[i]) && states[i + 1] == After(states[i], events[i], worker)
  }
}
