/** How much an assembly can come to for given seeds, traversal and page, over
    all chunks: some chunks take it to the bound, and without any only the fixed
    slots count. Hop chunks need a traversed entity. */
module AssemblyLimits {
  import opened Sequences
  import opened Budgets
  import opened Deduplication
  import opened ChunkPairs
  import opened ContextAssembly

  /** Materials of the same seeds, traversal and pages, with links and chunks of their own. */
  predicate SameSlots(m: Material, m': Material) {
    m' == m.(links := m'.links, chunks := m'.chunks)
  }

  /** The traversal kept an entity besides the seeds. */
  ghost predicate HasHops(m: Material) {
    exists h :: h in m.hops && h !in SeedIds(m)
  }

  /** The most an assembly can come to: the fixed slots and the elastic pool, of which
      an entity that reaches no other can use the seeds' share alone. */
  ghost function Ceiling(m: Material, lib: Library, slots: SlotBudgets, max: int): nat {
    var fixedTokens := FixedTokens(m, lib, slots);
    var elastic := Elastic(max, fixedTokens);
    fixedTokens + if HasHops(m) then elastic else lib.share(elastic)
  }

  lemma CeilingIs(m: Material, lib: Library, slots: SlotBudgets, max: int)
    requires Shares(lib)
    ensures var fixedTokens := FixedTokens(m, lib, slots);
      && (HasHops(m) ==> Ceiling(m, lib, slots, max) == if fixedTokens <= max then max else fixedTokens)
      && fixedTokens <= Ceiling(m, lib, slots, max) <= if fixedTokens <= max then max else fixedTokens
  {
    hide FixedTokens, HasHops;
  }

  lemma {:induction false} NoHopPairs(links: seq<Link>, chunks: map<Id, Chunk>, seeds: set<Id>, order: seq<Id>)
    requires forall l :: l in links ==> l.entity in seeds
    ensures HopPairs(links, chunks, seeds, order) == []
  {
    if order == [] {
    } else {
      var n := |order| - 1;
      NoHopPairs(links, chunks, seeds, order[..n]);
      var entities := EntitiesOf(links, order[n]);
      assert forall e :: e in entities ==> e in seeds;
      KeepAll(IsIn(seeds), entities);
      hide Keep;
    }
  }

  lemma HoplessHasNoHopSlot(m: Material, lib: Library, elastic: nat)
    requires !HasHops(m)
    ensures HopSlot(m, lib, elastic) == []
  {
    forall l | l in Rows(m) ensures l.entity in SeedIds(m) {
    }
    NoHopPairs(Rows(m), m.chunks, SeedIds(m), ChunkOrder(Rows(m)));
    hide SeedScored, Rows, SeedPairs, HopPairs, ChunkOrder, Deduped;
    assert Unsorted(lib.scoring, []) == [];
    assert HopScored(m, lib) == [] && HopSurvivors(m, lib) == [];
    assert Image(ShowHop(m.hopMap), []) == [];
  }

  /** The fixed slots are a lower bound and the ceiling an upper one. */
  lemma AssembledBelowCeiling(m: Material, lib: Library, slots: SlotBudgets, max: int)
    requires Shares(lib)
    ensures FixedTokens(m, lib, slots) <= AssembledTotal(m, lib, slots, max) <= Ceiling(m, lib, slots, max)
  {
    hide *;
    var elastic := Elastic(max, FixedTokens(m, lib, slots));
    AssembledWithin(m, lib, slots, max);
    CeilingIs(m, lib, slots, max);
    if !HasHops(m) {
      HoplessHasNoHopSlot(m, lib, elastic);
      SeedSlotCost(m, lib, elastic);
      TotalOfSlots(m, lib, slots, max);
      HoplessCeiling(m, lib, slots, max);
    }
  }

  lemma HoplessCeiling(m: Material, lib: Library, slots: SlotBudgets, max: int)
    requires !HasHops(m)
    ensures var elastic := Elastic(max, FixedTokens(m, lib, slots));
      Ceiling(m, lib, slots, max) == FixedTokens(m, lib, slots) + lib.share(elastic) && Cost(ShownText, []) == 0
  {
    hide FixedTokens, HasHops, Elastic;
  }

  lemma SameFixed(m: Material, m': Material, lib: Library, slots: SlotBudgets)
    requires SameSlots(m, m')
    ensures FixedTokens(m', lib, slots) == FixedTokens(m, lib, slots)
  {
    hide SlotTokens, WikiTokens;
  }

  lemma SameCeiling(m: Material, m': Material, lib: Library, slots: SlotBudgets, max: int)
    requires SameSlots(m, m')
    ensures Ceiling(m', lib, slots, max) == Ceiling(m, lib, slots, max)
  {
    SameFixed(m, m', lib, slots);
    hide FixedTokens;
  }

  // ---- No chunks ----

  function WithoutChunks(m: Material): Material { m.(links := [], chunks := map[]) }

  lemma WithoutChunksOnlyFixed(m: Material, lib: Library, slots: SlotBudgets, max: int)
    ensures SameSlots(m, WithoutChunks(m)) && FetchedChunks(WithoutChunks(m).chunks)
    ensures AssembledTotal(WithoutChunks(m), lib, slots, max) == FixedTokens(m, lib, slots)
  {
    var bare := WithoutChunks(m);
    SameFixed(m, bare, lib, slots);
    hide FixedTokens;
    NothingScored(bare, lib);
    var elastic := Elastic(max, FixedTokens(bare, lib, slots));
    assert Image(ShowSeed, []) == [] && Image(ShowHop(bare.hopMap), []) == [];
    assert SeedSlot(bare, lib, elastic) == [] && HopSlot(bare, lib, elastic) == [];
  }

  lemma NothingScored(m: Material, lib: Library)
    requires m.links == []
    ensures SeedSurvivors(m, lib) == [] && HopSurvivors(m, lib) == []
  {
    assert Rows(m) == [];
    assert ChunkOrder([]) == [];
    NoPairs([], m.chunks, SeedIds(m));
    assert Unsorted(lib.scoring, []) == [];
    assert SeedScored(m, lib) == [] && HopScored(m, lib) == [];
    assert HopSurvivors(m, lib) == [];
  }

  // ---- A full pool ----

  function Filler(tokens: nat): (s: string)
    ensures |s| == 4 * tokens
  {
    seq(4 * tokens, _ => 'x')
  }

  /** Two vectors that can be scored and do not repeat each other. */
  predicate Unlike(scoring: Scoring, u: Vector, v: Vector) {
    |u| == |v| == |scoring.query| && !scoring.similar(v, u)
  }

  /** One chunk for the first seed and one for a hop entity, as long as their budgets. */
  function Filled(m: Material, hop: Id, seedTokens: nat, hopTokens: nat, u: Vector, v: Vector): Material
    requires m.seeds != []
  {
    m.(links := [Link(0, m.seeds[0].entity), Link(1, hop)],
       chunks := map[0 := Chunk(0, Filler(seedTokens), Some(u)), 1 := Chunk(1, Filler(hopTokens), Some(v))])
  }

  /** One chunk for the first seed, as long as the seeds' share. */
  function SeedFilled(m: Material, seedTokens: nat, u: Vector): Material
    requires m.seeds != []
  {
    m.(links := [Link(0, m.seeds[0].entity)], chunks := map[0 := Chunk(0, Filler(seedTokens), Some(u))])
  }

  lemma FilledPairs(m: Material, hop: Id, a: nat, b: nat, u: Vector, v: Vector)
    requires m.seeds != [] && hop in m.hops && hop !in SeedIds(m)
    ensures var full := Filled(m, hop, a, b, u, v); var rows := Rows(full);
      && SeedPairs(rows, full.chunks, SeedIds(full), ChunkOrder(rows)) == [Pair(full.chunks[0], m.seeds[0].entity)]
      && HopPairs(rows, full.chunks, SeedIds(full), ChunkOrder(rows)) == [Pair(full.chunks[1], hop)]
  {
    hide *;
    var full, seed := Filled(m, hop, a, b, u, v), m.seeds[0].entity;
    FilledParts(m, hop, a, b, u, v);
    FilledEntities(full.links, seed, hop, SeedIds(m));
    PairsOf(full.links, full.chunks, SeedIds(m), seed, hop);
  }

  lemma FilledParts(m: Material, hop: Id, a: nat, b: nat, u: Vector, v: Vector)
    requires m.seeds != [] && hop in m.hops
    ensures var full, seed := Filled(m, hop, a, b, u, v), m.seeds[0].entity;
      && full.links == [Link(0, seed), Link(1, hop)] && 0 in full.chunks && 1 in full.chunks
      && seed in SeedIds(m) && SeedIds(full) == SeedIds(m)
      && Rows(full) == full.links && ChunkOrder(full.links) == [0, 1]
  {
    var full := Filled(m, hop, a, b, u, v);
    var seed := m.seeds[0];
    assert seed in full.seeds && seed.entity in SeedIds(m) && seed.entity in EntityIds(full);
    assert hop in full.hops && hop in EntityIds(full);
    FilledRows(full.links, EntityIds(full));
    FilledOrder(full.links);
  }

  lemma PairsOf(links: seq<Link>, chunks: map<Id, Chunk>, seeds: set<Id>, seed: Id, hop: Id)
    requires 0 in chunks && 1 in chunks
    requires EntitiesOf(links, 1) == [hop]
    requires LinkedSeeds(links, seeds, 0) == [seed] && LinkedSeeds(links, seeds, 1) == []
    ensures SeedPairs(links, chunks, seeds, [0, 1]) == [Pair(chunks[0], seed)]
    ensures HopPairs(links, chunks, seeds, [0, 1]) == [Pair(chunks[1], hop)]
  {
    NoPairs(links, chunks, seeds);
    PairsAppend(links, chunks, seeds, [], 0);
    PairsAppend(links, chunks, seeds, [0], 1);
    assert [] + [0] == [0] && [0] + [1] == [0, 1];
    hide LinkedSeeds, EntitiesOf, SeedPairs, HopPairs;
  }

  lemma FilledRows(links: seq<Link>, ids: set<Id>)
    requires |links| == 2 && links[0].entity in ids && links[1].entity in ids
    ensures Keep(LinksTo(ids), links) == links
  {
    KeepAll(LinksTo(ids), links);
  }

  lemma FilledOrder(links: seq<Link>)
    requires |links| == 2 && links[0].chunk == 0 && links[1].chunk == 1
    ensures ChunkOrder(links) == [0, 1]
  {
    assert Image(LinkChunk, links) == [0, 1];
    FirstPerKeyOfDistinct(LinkChunk, links);
  }

  lemma FilledEntities(links: seq<Link>, seed: Id, hop: Id, seeds: set<Id>)
    requires links == [Link(0, seed), Link(1, hop)] && seed in seeds && hop !in seeds
    ensures EntitiesOf(links, 0) == [seed] && EntitiesOf(links, 1) == [hop]
    ensures LinkedSeeds(links, seeds, 0) == [seed] && LinkedSeeds(links, seeds, 1) == []
  {
    hide *;
    assert links == [links[0]] + [links[1]];
    NextLink([links[0]], links[1]);
    OneLink(links[0], 0);
    OneLink(links[0], 1);
    assert [] + [hop] == [hop] && [seed] + [] == [seed];
    SeedsAmong(links, seeds, 0, seed);
    SeedsAmong(links, seeds, 1, hop);
  }

  lemma OneLink(l: Link, id: Id)
    ensures EntitiesOf([l], id) == if id == l.chunk then [l.entity] else []
  {
    assert [l][..0] == [];
  }

  lemma SeedsAmong(links: seq<Link>, seeds: set<Id>, chunk: Id, e: Id)
    requires EntitiesOf(links, chunk) == [e]
    ensures LinkedSeeds(links, seeds, chunk) == if e in seeds then [e] else []
  {
    hide EntitiesOf;
    assert [e][..0] == [];
  }

  lemma OnePairScored(scoring: Scoring, p: Pair)
    requires p.chunk.embedding.Some? && |p.chunk.embedding.value| == |scoring.query|
    ensures ScoredPairs(scoring, [p]) == [ScoreOf(scoring)(p)]
    ensures ScoreOf(scoring)(p).chunk == p.chunk
  {
    assert Image(WithEmbedding(scoring), [p]) == [p];
    KeepAll(Comparable(scoring), [p]);
    assert Unsorted(scoring, [p]) == [ScoreOf(scoring)(p)];
    assert [ScoreOf(scoring)(p)][..0] == [];
  }

  lemma TwoSurvive(similar: Similar, s: Scored, t: Scored)
    requires Embedded(s) && Embedded(t) && !Duplicates(similar, t, s) && s.chunk.id != t.chunk.id
    ensures Deduped(similar, [s]) == [s] && Deduped(similar, [s] + [t]) == [s, t]
    ensures Keep(HasIdIn(Ids(Deduped(similar, [s] + [t]))), [t]) == [t]
  {
    assert [s][..0] == [];
    DedupedNext(similar, [s], t);
    assert t in [s, t];
    KeepAll(HasIdIn(Ids([s, t])), [t]);
  }

  lemma OneFits<A>(text: A -> string, item: A, tokens: nat)
    requires |text(item)| == 4 * tokens
    ensures Cost(text, Fitting(text, [item], tokens)) == tokens
  {
    assert [item][..0] == [];
  }

  /** Chunks that take the total to its ceiling. */
  lemma FilledIsFull(m: Material, lib: Library, slots: SlotBudgets, max: int, u: Vector, v: Vector)
    returns (full: Material)
    requires m.seeds != [] && Shares(lib) && Unlike(lib.scoring, u, v)
    ensures SameSlots(m, full) && FetchedChunks(full.chunks)
    ensures AssembledTotal(full, lib, slots, max) == Ceiling(m, lib, slots, max)
  {
    hide *;
    var elastic := Elastic(max, FixedTokens(m, lib, slots));
    ShareWithin(lib, elastic);
    var a, b := lib.share(elastic), elastic - lib.share(elastic);
    CeilingIs(m, lib, slots, max);
    if HasHops(m) {
      var hop := SomeHop(m);
      full := Filled(m, hop, a, b, u, v);
      FilledShape(m, hop, a, b, u, v);
      FilledSurvivors(m, lib, hop, a, b, u, v);
      FilledSlots(full, lib, elastic);
      ElasticFills(max, FixedTokens(m, lib, slots));
    } else {
      full := SeedFilled(m, a, u);
      SeedFilledShape(m, a, u);
      HoplessHasNoHopSlot(full, lib, elastic);
      QueryLong(lib.scoring, u, v);
      SeedFilledSlot(m, lib, elastic, u);
      HoplessCeiling(m, lib, slots, max);
    }
    SameFixed(m, full, lib, slots);
    TotalOfSlots(full, lib, slots, max);
  }

  lemma QueryLong(scoring: Scoring, u: Vector, v: Vector)
    requires Unlike(scoring, u, v)
    ensures |u| == |scoring.query|
  {
  }

  lemma SomeHop(m: Material) returns (hop: Id)
    requires HasHops(m)
    ensures hop in m.hops && hop !in SeedIds(m)
  {
    hop :| hop in m.hops && hop !in SeedIds(m);
  }

  lemma SeedFilledShape(m: Material, a: nat, u: Vector)
    requires m.seeds != []
    ensures var full := SeedFilled(m, a, u);
      SameSlots(m, full) && FetchedChunks(full.chunks) && (HasHops(full) <==> HasHops(m))
  {
  }

  lemma SeedFilledSlot(m: Material, lib: Library, elastic: nat, u: Vector)
    requires m.seeds != [] && |u| == |lib.scoring.query| && lib.share(elastic) <= elastic
    ensures Cost(ShownText, SeedSlot(SeedFilled(m, lib.share(elastic), u), lib, elastic)) == lib.share(elastic)
  {
    hide SeedSurvivors, Rows, Filled, Unlike, HasHops, SeedIds;
    var full := SeedFilled(m, lib.share(elastic), u);
    SeedFilledSurvivor(m, lib, lib.share(elastic), u);
    assert m.seeds[0] in full.seeds && m.seeds[0].entity in EntityIds(full);
    OneShown(full, lib, elastic);
  }

  lemma OneShown(m: Material, lib: Library, elastic: nat)
    requires EntityIds(m) != {} && lib.share(elastic) <= elastic
    requires |SeedSurvivors(m, lib)| == 1 && |SeedSurvivors(m, lib)[0].chunk.text| == 4 * lib.share(elastic)
    ensures Cost(ShownText, SeedSlot(m, lib, elastic)) == lib.share(elastic)
  {
    hide SeedSurvivors, EntityIds;
    var s := SeedSurvivors(m, lib)[0];
    assert Image(ShowSeed, SeedSurvivors(m, lib)) == [ShowSeed(s)];
    OneFits(ShownText, ShowSeed(s), lib.share(elastic));
  }

  lemma SeedFilledSurvivor(m: Material, lib: Library, a: nat, u: Vector)
    requires m.seeds != [] && |u| == |lib.scoring.query|
    ensures var full := SeedFilled(m, a, u);
      |SeedSurvivors(full, lib)| == 1 && SeedSurvivors(full, lib)[0].chunk.text == Filler(a)
  {
    hide Rows, SeedPairs, SeedIds, ChunkOrder, SeedSurvivors, Filler, Filled, Unlike, HasHops;
    var full := SeedFilled(m, a, u);
    SeedFilledPair(m, a, u);
    OneSurvives(full, lib, Pair(full.chunks[0], m.seeds[0].entity));
  }

  lemma OneSurvives(m: Material, lib: Library, p: Pair)
    requires SeedPairs(Rows(m), m.chunks, SeedIds(m), ChunkOrder(Rows(m))) == [p]
    requires p.chunk.embedding.Some? && |p.chunk.embedding.value| == |lib.scoring.query|
    ensures |SeedSurvivors(m, lib)| == 1 && SeedSurvivors(m, lib)[0].chunk == p.chunk
  {
    hide Rows, SeedPairs, SeedIds, ChunkOrder, ScoredPairs;
    OnePairScored(lib.scoring, p);
    var s := ScoreOf(lib.scoring)(p);
    assert [s][..0] == [];
    DedupedNext(lib.scoring.similar, [], s);
    assert [] + [s] == [s];
  }

  lemma SeedFilledPair(m: Material, a: nat, u: Vector)
    requires m.seeds != []
    ensures var full := SeedFilled(m, a, u);
      0 in full.chunks
      && SeedPairs(Rows(full), full.chunks, SeedIds(full), ChunkOrder(Rows(full)))
         == [Pair(full.chunks[0], m.seeds[0].entity)]
  {
    var full, seed := SeedFilled(m, a, u), m.seeds[0].entity;
    assert m.seeds[0] in full.seeds && seed in SeedIds(full) && seed in EntityIds(full);
    KeepAll(LinksTo(EntityIds(full)), full.links);
    assert Rows(full) == full.links == [Link(0, seed)];
    assert Image(LinkChunk, full.links) == [0];
    FirstPerKeyOfDistinct(LinkChunk, full.links);
    assert ChunkOrder(full.links) == [0];
    OneLink(Link(0, seed), 0);
    SeedsAmong(full.links, SeedIds(full), 0, seed);
    NoPairs(full.links, full.chunks, SeedIds(full));
    PairsAppend(full.links, full.chunks, SeedIds(full), [], 0);
    assert [] + [0] == [0];
  }

  lemma ShareWithin(lib: Library, elastic: nat)
    requires Shares(lib)
    ensures lib.share(elastic) <= elastic
  {
  }

  lemma FilledShape(m: Material, hop: Id, a: nat, b: nat, u: Vector, v: Vector)
    requires m.seeds != [] && hop in m.hops
    ensures var full := Filled(m, hop, a, b, u, v);
      && SameSlots(m, full) && FetchedChunks(full.chunks) && 0 in full.chunks && 1 in full.chunks
      && EntityIds(full) != {}
      && |full.chunks[0].text| == 4 * a && |full.chunks[1].text| == 4 * b
  {
    assert hop in EntityIds(Filled(m, hop, a, b, u, v));
  }

  lemma TotalOfSlots(m: Material, lib: Library, slots: SlotBudgets, max: int)
    ensures var elastic := Elastic(max, FixedTokens(m, lib, slots));
      AssembledTotal(m, lib, slots, max)
        == FixedTokens(m, lib, slots) + Cost(ShownText, SeedSlot(m, lib, elastic))
          + Cost(ShownText, HopSlot(m, lib, elastic))
  {
    hide FixedTokens, Elastic, SeedSlot, HopSlot, Cost;
  }

  lemma FilledSurvivors(m: Material, lib: Library, hop: Id, a: nat, b: nat, u: Vector, v: Vector)
    requires m.seeds != [] && hop in m.hops && hop !in SeedIds(m) && Unlike(lib.scoring, u, v)
    ensures var full := Filled(m, hop, a, b, u, v);
      && 0 in full.chunks && 1 in full.chunks
      && |SeedSurvivors(full, lib)| == 1 && SeedSurvivors(full, lib)[0].chunk == full.chunks[0]
      && |HopSurvivors(full, lib)| == 1 && HopSurvivors(full, lib)[0].chunk == full.chunks[1]
  {
    var full := Filled(m, hop, a, b, u, v);
    FilledPairs(m, hop, a, b, u, v);
    var p, q := Pair(full.chunks[0], m.seeds[0].entity), Pair(full.chunks[1], hop);
    OnePairScored(lib.scoring, p);
    OnePairScored(lib.scoring, q);
    var s, t := ScoreOf(lib.scoring)(p), ScoreOf(lib.scoring)(q);
    TwoSurvive(lib.scoring.similar, s, t);
    assert SeedScored(full, lib) == [s] && HopScored(full, lib) == [t];
    assert SeedSurvivors(full, lib) == [s] && HopSurvivors(full, lib) == [t];
  }

  lemma FilledSlots(full: Material, lib: Library, elastic: nat)
    requires EntityIds(full) != {} && lib.share(elastic) <= elastic
    requires |SeedSurvivors(full, lib)| == 1 && |HopSurvivors(full, lib)| == 1
    requires |SeedSurvivors(full, lib)[0].chunk.text| == 4 * lib.share(elastic)
    requires |HopSurvivors(full, lib)[0].chunk.text| == 4 * (elastic - lib.share(elastic))
    ensures Cost(ShownText, SeedSlot(full, lib, elastic)) == lib.share(elastic)
    ensures Cost(ShownText, HopSlot(full, lib, elastic)) == elastic - lib.share(elastic)
  {
    hide SeedSurvivors, HopSurvivors, SeedSlot, EntityIds;
    var t := HopSurvivors(full, lib)[0];
    OneShown(full, lib, elastic);
    assert Image(ShowHop(full.hopMap), HopSurvivors(full, lib)) == [ShowHop(full.hopMap)(t)];
    OneFits(ShownText, ShowHop(full.hopMap)(t), elastic - lib.share(elastic));
  }
}
