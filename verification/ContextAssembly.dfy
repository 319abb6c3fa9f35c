/** Filling the slots of a retrieval result and sharing what is left of the
    caller's budget between seed and hop chunks. */
module ContextAssembly {
  import opened Sequences
  import opened Texts
  import opened Budgets
  import opened Deduplication
  import opened ChunkPairs
  import W = WikiSections

  function RetrievalInstruction(): string {
    "Use the provided context \U{2014} including entity metadata, graph relations, "
    + "wiki pages, and source chunks \U{2014} to answer the user's question accurately."
  }

  /** What the instruction costs. */
  const INSTRUCTION_TOKENS: nat := 36

  lemma InstructionTokens()
    ensures EstimateTokens(RetrievalInstruction()) == INSTRUCTION_TOKENS
  {
    assert |RetrievalInstruction()| == 144;
  }

  /** A seed with its rendered anchor line, and an edge with its rendered line. */
  datatype Seed = Seed(entity: Id, line: string)
  datatype Edge = Edge(source: string, relation: string, target: string, hop: nat, line: string)

  function SeedId(s: Seed): Id { s.entity }
  function AnchorLine(s: Seed): string { s.line }
  function EdgeLine(e: Edge): string { e.line }

  /** A chunk as the result shows it. */
  datatype Shown = Shown(chunk: Id, entity: Id, text: string, similarity: int, hop: nat)

  function ShownId(s: Shown): Id { s.chunk }
  function ShownText(s: Shown): string { s.text }

  datatype SlotCounts = SlotCounts(anchor: nat, subgraph: nat, wikiPage: nat, seedChunks: nat, hopChunks: nat,
    instruction: nat, total: nat, budget: int, utilization: real)

  datatype RetrievalResult = RetrievalResult(query: string, retrievedAt: int,
    seeds: seq<Seed>, subgraph: seq<Edge>, wikiPage: Option<W.Snapshot>,
    seedChunks: seq<Shown>, hopChunks: seq<Shown>, counts: SlotCounts, totalTokens: nat,
    entitiesTraversed: nat, entitiesAfterTruncation: nat, chunksFetched: nat, chunksAfterDedup: nat)

  datatype SlotBudgets = SlotBudgets(anchor: int, subgraph: int, wikiPage: int)

  /** The shipped settings. */
  const SHIPPED := SlotBudgets(200, 400, 1000)
  const SHIPPED_TOTAL := 3600

  /** Seeds, traversal and the tables the assembly reads. */
  datatype Material = Material(query: string, now: int, seeds: seq<Seed>, edges: seq<Edge>, hops: seq<Id>,
                               hopMap: map<Id, nat>,
    pages: map<Id, W.WikiPage>, links: seq<Link>, chunks: map<Id, Chunk>)

  /** Scoring, lower-casing, the rounded-down 0.6 share of a budget and rounding to four places. */
  datatype Library = Library(scoring: Scoring, lower: string -> string, share: nat -> nat, round: real -> real)

  ghost predicate Shares(lib: Library) { forall budget :: lib.share(budget) <= budget }

  // ---- The fixed slots ----

  function SlotTokens<A>(text: A -> string, items: seq<A>, budget: int): nat {
    EstimateTokens(JoinedBy("\n", text)(Fitting(text, items, budget)))
  }

  function PageOf(m: Material): Option<W.WikiPage> {
    if m.seeds != [] && m.seeds[0].entity in m.pages then Some(m.pages[m.seeds[0].entity]) else None
  }

  function SnapshotFor(m: Material, lib: Library, slots: SlotBudgets): Option<W.Snapshot> {
    if PageOf(m).None? then None else Some(W.SnapshotOf(lib.lower, PageOf(m).value, slots.wikiPage))
  }

  function WikiTokens(snapshot: Option<W.Snapshot>): nat {
    if snapshot.None? then 0 else EstimateTokens(snapshot.value.content)
  }

  /** Everything but the chunks: anchor, subgraph, wiki page and instruction. */
  function FixedTokens(m: Material, lib: Library, slots: SlotBudgets): nat {
    SlotTokens(AnchorLine, m.seeds, slots.anchor) + SlotTokens(EdgeLine, m.edges, slots.subgraph)
      + INSTRUCTION_TOKENS + WikiTokens(SnapshotFor(m, lib, slots))
  }

  function Elastic(max: int, fixedTokens: nat): nat { if max - fixedTokens < 0 then 0 else max - fixedTokens }

  // ---- The chunk slots ----

  function EntityIds(m: Material): set<Id> { (set s | s in m.seeds :: s.entity) + set h | h in m.hops }

  function SeedIds(m: Material): set<Id> { set s | s in m.seeds :: s.entity }

  function LinksTo(ids: set<Id>): Link -> bool { (l: Link) => l.entity in ids }

  function Rows(m: Material): seq<Link> { Keep(LinksTo(EntityIds(m)), m.links) }

  function SeedScored(m: Material, lib: Library): seq<Scored> {
    ScoredPairs(lib.scoring, SeedPairs(Rows(m), m.chunks, SeedIds(m), ChunkOrder(Rows(m))))
  }

  function HopScored(m: Material, lib: Library): seq<Scored> {
    ScoredPairs(lib.scoring, HopPairs(Rows(m), m.chunks, SeedIds(m), ChunkOrder(Rows(m))))
  }

  function ShowSeed(s: Scored): Shown { Shown(s.chunk.id, s.entity, s.chunk.text, s.similarity, 0) }

  function ShowHop(hopMap: map<Id, nat>): Scored -> Shown {
    (s: Scored) =>
      Shown(s.chunk.id, s.entity, s.chunk.text, s.similarity, if s.entity in hopMap then hopMap[s.entity] else 1)
  }

  /** The seed chunks to show: the survivors among the seed chunks alone. */
  function SeedSurvivors(m: Material, lib: Library): seq<Scored> { Deduped(lib.scoring.similar, SeedScored(m, lib)) }

  /** The hop chunks to show: the survivors of the joint pass, behind the seeds'. */
  function HopSurvivors(m: Material, lib: Library): seq<Scored> {
    Keep(HasIdIn(Ids(Deduped(lib.scoring.similar, SeedScored(m, lib) + HopScored(m, lib)))), HopScored(m, lib))
  }

  function SeedSlot(m: Material, lib: Library, elastic: nat): seq<Shown> {
    if EntityIds(m) == {} || elastic == 0 then []
    else Fitting(ShownText, Image(ShowSeed, SeedSurvivors(m, lib)), lib.share(elastic))
  }

  function HopSlot(m: Material, lib: Library, elastic: nat): seq<Shown> {
    if EntityIds(m) == {} || elastic == 0 then []
    else Fitting(ShownText, Image(ShowHop(m.hopMap), HopSurvivors(m, lib)), elastic - lib.share(elastic))
  }

  function ChunksFetched(m: Material, elastic: nat): nat {
    if EntityIds(m) == {} || elastic == 0 then 0
    else
      var rows, seeds := Rows(m), SeedIds(m);
      |SeedPairs(rows, m.chunks, seeds, ChunkOrder(rows))| + |HopPairs(rows, m.chunks, seeds, ChunkOrder(rows))|
  }

  function ChunksAfterDedup(m: Material, lib: Library, elastic: nat): nat {
    if EntityIds(m) == {} || elastic == 0 then 0 else |SeedSurvivors(m, lib)| + |HopSurvivors(m, lib)|
  }

  /** Fetch, score, de-duplicate and truncate the chunks. */
  method GatherChunks(m: Material, lib: Library, elastic: nat)
    returns (seedChunks: seq<Shown>, hopChunks: seq<Shown>, fetched: nat, afterDedup: nat)
    requires FetchedChunks(m.chunks)
    ensures seedChunks == SeedSlot(m, lib, elastic) && hopChunks == HopSlot(m, lib, elastic)
    ensures fetched == ChunksFetched(m, elastic) && afterDedup == ChunksAfterDedup(m, lib, elastic)
    ensures fetched >= afterDedup >= |seedChunks| + |hopChunks|
  {
    if EntityIds(m) == {} || elastic == 0 {
      return [], [], 0, 0;
    }
    var seedPairs, hopPairs := PairChunks(Rows(m), m.chunks, SeedIds(m));
    fetched := |seedPairs| + |hopPairs|;
    var seedScored := ScoreChunkPairs(lib.scoring, seedPairs);
    var hopScored := ScoreChunkPairs(lib.scoring, hopPairs);
    var deduped := DeduplicateChunks(lib.scoring.similar, seedScored + hopScored);
    ScoredSidesAreDistinct(lib.scoring, Rows(m), m.chunks, SeedIds(m));
    SeedsIgnoreHops(lib.scoring.similar, seedScored, hopScored);
    assert seedScored == SeedScored(m, lib) && hopScored == HopScored(m, lib);
    assert |seedScored| <= |seedPairs| && |hopScored| <= |hopPairs|;
    assert ChunksFetched(m, elastic) == fetched;
    assert ChunksAfterDedup(m, lib, elastic) == |SeedSurvivors(m, lib)| + |HopSurvivors(m, lib)|;
    assert SeedSurvivors(m, lib) == Deduped(lib.scoring.similar, seedScored);
    assert HopSurvivors(m, lib) == Keep(HasIdIn(Ids(deduped)), hopScored);
    CountSurvivors(lib.scoring.similar, seedScored + hopScored);
    hide *;
    afterDedup := |Ids(deduped)|;
    var seedsKept := Keep(HasIdIn(Ids(deduped)), seedScored);
    var hopsKept := Keep(HasIdIn(Ids(deduped)), hopScored);
    seedChunks, hopChunks := TruncateBoth(m, lib, elastic, seedsKept, hopsKept);
  }

  method TruncateBoth(m: Material, lib: Library, elastic: nat, seedsKept: seq<Scored>, hopsKept: seq<Scored>)
    returns (seedChunks: seq<Shown>, hopChunks: seq<Shown>)
    requires EntityIds(m) != {} && elastic > 0
    requires seedsKept == SeedSurvivors(m, lib) && hopsKept == HopSurvivors(m, lib)
    ensures seedChunks == SeedSlot(m, lib, elastic) && hopChunks == HopSlot(m, lib, elastic)
    ensures |seedChunks| <= |seedsKept| && |hopChunks| <= |hopsKept|
  {
    hide EntityIds, SeedSurvivors, HopSurvivors;
    seedChunks := TruncateToBudget(ShownText, Image(ShowSeed, seedsKept), lib.share(elastic));
    hopChunks := TruncateToBudget(ShownText, Image(ShowHop(m.hopMap), hopsKept), elastic - lib.share(elastic));
  }

  lemma {:induction false} CountSurvivors(similar: Similar, scored: seq<Scored>)
    requires Distinct(Image(ChunkId, scored))
    ensures |Ids(Deduped(similar, scored))| == |Deduped(similar, scored)| <= |scored|
  {
    if scored == [] {
    } else {
      var n := |scored| - 1;
      var front, last := scored[..n], scored[n];
      assert scored == front + [last];
      assert Image(ChunkId, front) == Image(ChunkId, scored)[..n];
      CountSurvivors(similar, front);
      LastIdIsNew(similar, front, last);
      DedupedNext(similar, front, last);
      var kept := Deduped(similar, front);
      assert last.chunk.id !in Ids(kept);
      assert Ids(kept + [last]) == Ids(kept) + {last.chunk.id};
    }
  }

  // ---- The assembly ----

  lemma ElasticFills(max: int, fixedTokens: nat)
    ensures fixedTokens + Elastic(max, fixedTokens) == if fixedTokens <= max then max else fixedTokens
  {
  }

  /** The slots filled before the chunks: anchor, subgraph, wiki page, instruction. */
  method FillFixedSlots(m: Material, lib: Library, slots: SlotBudgets)
    returns (anchor: nat, subgraph: nat, wikiPage: nat, instruction: nat, snapshot: Option<W.Snapshot>)
    ensures anchor == SlotTokens(AnchorLine, m.seeds, slots.anchor)
    ensures subgraph == SlotTokens(EdgeLine, m.edges, slots.subgraph)
    ensures snapshot == SnapshotFor(m, lib, slots) && wikiPage == WikiTokens(snapshot)
    ensures instruction == INSTRUCTION_TOKENS
    ensures anchor + subgraph + instruction + wikiPage == FixedTokens(m, lib, slots)
  {
    hide RetrievalInstruction;
    var anchors := TruncateToBudget(AnchorLine, m.seeds, slots.anchor);
    anchor := EstimateTokens(JoinedBy("\n", AnchorLine)(anchors));
    var edges := TruncateToBudget(EdgeLine, m.edges, slots.subgraph);
    subgraph := EstimateTokens(JoinedBy("\n", EdgeLine)(edges));
    snapshot := W.FetchWikiPage(lib.lower, PageOf(m), slots.wikiPage);
    wikiPage := WikiTokens(snapshot);
    instruction := EstimateTokens(RetrievalInstruction());
    InstructionTokens();
  }

  function Utilization(total: nat, budget: int): real {
    if budget != 0 then total as real / budget as real else 0.0
  }

  /** What the assembly accounts for: the fixed slots and the chunks kept in the elastic pool. */
  function AssembledTotal(m: Material, lib: Library, slots: SlotBudgets, max: int): nat {
    var elastic := Elastic(max, FixedTokens(m, lib, slots));
    FixedTokens(m, lib, slots) + Cost(ShownText, SeedSlot(m, lib, elastic)) + Cost(ShownText, HopSlot(m, lib, elastic))
  }

  function AssembledCounts(m: Material, lib: Library, slots: SlotBudgets, max: int): SlotCounts {
    var elastic := Elastic(max, FixedTokens(m, lib, slots));
    var total := AssembledTotal(m, lib, slots, max);
    SlotCounts(SlotTokens(AnchorLine, m.seeds, slots.anchor), SlotTokens(EdgeLine, m.edges, slots.subgraph),
      WikiTokens(SnapshotFor(m, lib, slots)),
      Cost(ShownText, SeedSlot(m, lib, elastic)), Cost(ShownText, HopSlot(m, lib, elastic)),
      INSTRUCTION_TOKENS, total, max, lib.round(Utilization(total, max)))
  }

  /** The result of an assembly, field by field. */
  function Assembled(m: Material, lib: Library, slots: SlotBudgets, max: int): RetrievalResult {
    var elastic := Elastic(max, FixedTokens(m, lib, slots));
    RetrievalResult(m.query, m.now, m.seeds, m.edges, SnapshotFor(m, lib, slots),
      SeedSlot(m, lib, elastic), HopSlot(m, lib, elastic),
      AssembledCounts(m, lib, slots, max), AssembledTotal(m, lib, slots, max),
      |m.hopMap|, |m.hops|, ChunksFetched(m, elastic), ChunksAfterDedup(m, lib, elastic))
  }

  /** assemble_context */
  method AssembleContext(m: Material, lib: Library, slots: SlotBudgets, max: int) returns (result: RetrievalResult)
    requires FetchedChunks(m.chunks) && Shares(lib)
    ensures result == Assembled(m, lib, slots, max) && Accounted(result)
    ensures var fixedTokens := FixedTokens(m, lib, slots);
      && fixedTokens <= result.totalTokens <= (if fixedTokens <= max then max else fixedTokens)
      && (result.totalTokens <= max <==> fixedTokens <= max)
  {
    hide *;
    var anchorTokens, subgraphTokens, wikiTokens, instructionTokens, snapshot := FillFixedSlots(m, lib, slots);
    var elastic := Elastic(max, anchorTokens + subgraphTokens + instructionTokens + wikiTokens);
    var seedChunks, hopChunks, fetched, afterDedup := GatherChunks(m, lib, elastic);
    var seedTokens, hopTokens := Cost(ShownText, seedChunks), Cost(ShownText, hopChunks);
    var counts := CountTokens(anchorTokens, subgraphTokens, wikiTokens, seedTokens, hopTokens, instructionTokens, max,
                              lib.round);
    result := RetrievalResult(m.query, m.now, m.seeds, m.edges, snapshot, seedChunks, hopChunks,
      counts, counts.total, |m.hopMap|, |m.hops|, fetched, afterDedup);
    IsAssembled(m, lib, slots, max, elastic, counts, result);
    AssembledWithin(m, lib, slots, max);
  }

  lemma IsAssembled(m: Material, lib: Library, slots: SlotBudgets, max: int, elastic: nat, counts: SlotCounts,
                    result: RetrievalResult)
    requires elastic == Elastic(max, FixedTokens(m, lib, slots))
    requires counts.anchor == SlotTokens(AnchorLine, m.seeds, slots.anchor)
    requires counts.subgraph == SlotTokens(EdgeLine, m.edges, slots.subgraph)
    requires counts.wikiPage == WikiTokens(SnapshotFor(m, lib, slots))
    requires counts.instruction == INSTRUCTION_TOKENS
    requires counts.seedChunks == Cost(ShownText, SeedSlot(m, lib, elastic))
    requires counts.hopChunks == Cost(ShownText, HopSlot(m, lib, elastic))
    requires counts.total
          == counts.anchor + counts.subgraph + counts.wikiPage + counts.seedChunks + counts.hopChunks
             + counts.instruction
    requires counts.budget == max && counts.utilization == lib.round(Utilization(counts.total, max))
    requires result == RetrievalResult(m.query, m.now, m.seeds, m.edges, SnapshotFor(m, lib, slots),
      SeedSlot(m, lib, elastic), HopSlot(m, lib, elastic), counts, counts.total, |m.hopMap|, |m.hops|,
      ChunksFetched(m, elastic), ChunksAfterDedup(m, lib, elastic))
    ensures result == Assembled(m, lib, slots, max) && result.totalTokens == AssembledTotal(m, lib, slots, max)
  {
    hide SlotTokens, EstimateTokens, WikiTokens, SnapshotFor, SeedSlot, HopSlot, Cost, Elastic,
      ChunksFetched, ChunksAfterDedup, Utilization;
  }

  /** Assembling stays within the larger of the caller's budget and the fixed slots, and within the
      budget exactly when the fixed slots do; every slot count is accounted for. */
  lemma AssembledWithin(m: Material, lib: Library, slots: SlotBudgets, max: int)
    requires Shares(lib)
    ensures Accounted(Assembled(m, lib, slots, max))
    ensures var fixedTokens, total := FixedTokens(m, lib, slots), AssembledTotal(m, lib, slots, max);
      && fixedTokens <= total <= (if fixedTokens <= max then max else fixedTokens)
      && (total <= max <==> fixedTokens <= max)
  {
    hide SlotTokens, EstimateTokens, WikiTokens, SnapshotFor, SeedSlot, HopSlot, Cost, Elastic,
      ChunksFetched, ChunksAfterDedup, Utilization, Shares;
    ElasticFills(max, FixedTokens(m, lib, slots));
    ChunksFitElastic(m, lib, Elastic(max, FixedTokens(m, lib, slots)));
  }

  method CountTokens(anchor: nat, subgraph: nat, wikiPage: nat, seedChunks: nat, hopChunks: nat, instruction: nat,
    max: int, round: real -> real) returns (counts: SlotCounts)
    ensures counts.anchor == anchor && counts.subgraph == subgraph && counts.wikiPage == wikiPage
    ensures counts.seedChunks == seedChunks && counts.hopChunks == hopChunks && counts.instruction == instruction
    ensures counts.total == anchor + subgraph + wikiPage + seedChunks + hopChunks + instruction && counts.budget == max
    ensures counts.utilization == round(Utilization(counts.total, max))
  {
    var total := anchor + subgraph + wikiPage + seedChunks + hopChunks + instruction;
    var utilization := if max != 0 then total as real / max as real else 0.0;
    counts := SlotCounts(anchor, subgraph, wikiPage, seedChunks, hopChunks, instruction, total, max,
                         round(utilization));
  }

  /** The slot counts sum to the total, and the chunk counts cover the chunks shown. */
  predicate Accounted(r: RetrievalResult) {
    && r.counts.total == r.totalTokens
    && r.totalTokens == r.counts.anchor + r.counts.subgraph + r.counts.wikiPage
         + r.counts.seedChunks + r.counts.hopChunks + r.counts.instruction
    && Cost(ShownText, r.seedChunks) <= r.counts.seedChunks
    && Cost(ShownText, r.hopChunks) <= r.counts.hopChunks
  }

  lemma SeedSlotCost(m: Material, lib: Library, elastic: nat)
    ensures Cost(ShownText, SeedSlot(m, lib, elastic)) <= lib.share(elastic)
  {
    hide EntityIds, SeedSurvivors;
    var items := Image(ShowSeed, SeedSurvivors(m, lib));
    hide Image, ShowSeed, ShownText;
    FittingCost(ShownText, items, lib.share(elastic));
    hide Fitting;
  }

  lemma HopSlotCost(m: Material, lib: Library, elastic: nat)
    requires lib.share(elastic) <= elastic
    ensures Cost(ShownText, HopSlot(m, lib, elastic)) <= elastic - lib.share(elastic)
  {
    hide EntityIds, HopSurvivors;
    var items := Image(ShowHop(m.hopMap), HopSurvivors(m, lib));
    hide Image, ShowHop, ShownText;
    FittingCost(ShownText, items, elastic - lib.share(elastic));
    hide Fitting;
  }

  lemma ChunksFitElastic(m: Material, lib: Library, elastic: nat)
    requires Shares(lib)
    ensures Cost(ShownText, SeedSlot(m, lib, elastic)) + Cost(ShownText, HopSlot(m, lib, elastic)) <= elastic
  {
    assert lib.share(elastic) <= elastic;
    hide *;
    SeedSlotCost(m, lib, elastic);
    HopSlotCost(m, lib, elastic);
  }

  // ---- How large the fixed slots can get ----

  lemma SlotWithinBound<A>(text: A -> string, items: seq<A>, budget: int)
    ensures 1 <= SlotTokens(text, items, budget) <= SlotBound(1, budget)
  {
    FittingCost(text, items, budget);
    JoinedWithinSlot("\n", text, Fitting(text, items, budget), budget);
  }

  /** The four fixed slots, for every input and every setting. */
  lemma FixedTokensBound(m: Material, lib: Library, slots: SlotBudgets)
    ensures 38 <= FixedTokens(m, lib, slots)
      <= SlotBound(1, slots.anchor) + SlotBound(1, slots.subgraph) + SlotBound(2, slots.wikiPage) + INSTRUCTION_TOKENS
  {
    SlotWithinBound(AnchorLine, m.seeds, slots.anchor);
    SlotWithinBound(EdgeLine, m.edges, slots.subgraph);
    if PageOf(m).Some? {
      W.SnapshotWithinSlot(lib.lower, PageOf(m).value, slots.wikiPage);
    }
    hide SlotTokens, EstimateTokens, PageOf, W.SnapshotOf;
    assert WikiTokens(SnapshotFor(m, lib, slots)) <= SlotBound(2, slots.wikiPage);
  }

  lemma ShippedBound()
    ensures SlotBound(1, SHIPPED.anchor) + SlotBound(1, SHIPPED.subgraph) + SlotBound(2, SHIPPED.wikiPage)
        + INSTRUCTION_TOKENS == 3483
  {
  }

  /** A default call with the shipped slot budgets never exceeds its 3600 tokens. */
  method AssembleShipped(m: Material, lib: Library) returns (result: RetrievalResult)
    requires FetchedChunks(m.chunks) && Shares(lib)
    ensures result == Assembled(m, lib, SHIPPED, SHIPPED_TOTAL) && result.totalTokens <= SHIPPED_TOTAL
  {
    FixedTokensBound(m, lib, SHIPPED);
    ShippedBound();
    result := AssembleContext(m, lib, SHIPPED, SHIPPED_TOTAL);
  }
}
