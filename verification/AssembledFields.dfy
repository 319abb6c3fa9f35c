/** Every field of an assembled result, told from the material and the settings. */
module AssembledFields {
  import opened Sequences
  import opened Texts
  import opened Budgets
  import opened Deduplication
  import opened ChunkPairs
  import opened ContextAssembly
  import W = WikiSections

  // ---- The fixed slots ----

  /** The size of the longest run of lines that fits the budget, from the first line on, joined by newlines. */
  ghost predicate IsSlotSize(lines: seq<string>, budget: int, tokens: nat) {
    exists k: nat :: LongestFit(Same, lines, budget, k) && tokens == EstimateTokens(Join("\n", lines[..k]))
  }

  lemma {:induction false} CostOfLines<A>(text: A -> string, items: seq<A>)
    ensures Cost(Same, Image(text, items)) == Cost(text, items)
  {
    if items == [] {
    } else {
      var n := |items| - 1;
      CostOfLines(text, items[..n]);
      assert Image(text, items)[..n] == Image(text, items[..n]);
    }
  }

  lemma SlotTokensAreSize<A>(text: A -> string, items: seq<A>, budget: int)
    ensures IsSlotSize(Image(text, items), budget, SlotTokens(text, items, budget))
  {
    FittingIsLongest(text, items, budget);
    var lines, k := Image(text, items), |Fitting(text, items, budget)|;
    assert Fitting(text, items, budget) == items[..k];
    assert JoinedBy("\n", text)(items[..k]) == Join("\n", Image(text, items[..k]));
    hide EstimateTokens, Fitting, Join, Cost;
    forall j | 0 <= j <= |lines| ensures Cost(Same, lines[..j]) == Cost(text, items[..j]) {
      CostOfLines(text, items[..j]);
      assert lines[..j] == Image(text, items[..j]);
    }
    assert lines[..k] == Image(text, items[..k]);
    assert LongestFit(Same, lines, budget, k);
  }

  /** Query, time, seeds and edges are passed on; the traversal is counted; the anchor, subgraph, wiki and
      instruction slots have their sizes; the wiki page is the first seed's. */
  lemma FixedFields(m: Material, lib: Library, slots: SlotBudgets, max: int)
    ensures var r := Assembled(m, lib, slots, max);
      && r.query == m.query && r.retrievedAt == m.now && r.seeds == m.seeds && r.subgraph == m.edges
      && r.entitiesTraversed == |m.hopMap| && r.entitiesAfterTruncation == |m.hops|
      && IsSlotSize(seq(|m.seeds|, i requires 0 <= i < |m.seeds| => m.seeds[i].line), slots.anchor, r.counts.anchor)
      && IsSlotSize(seq(|m.edges|, i requires 0 <= i < |m.edges| => m.edges[i].line), slots.subgraph,
                    r.counts.subgraph)
      && r.counts.instruction == 36
      && r.wikiPage == (if m.seeds != [] && m.seeds[0].entity in m.pages
                        then Some(W.SnapshotOf(lib.lower, m.pages[m.seeds[0].entity], slots.wikiPage)) else None)
      && r.counts.wikiPage == match r.wikiPage case None => 0 case Some(page) => EstimateTokens(page.content)
  {
    hide IsSlotSize, SlotTokens, EstimateTokens, AssembledTotal, SeedSlot, HopSlot, Cost, Utilization;
    SlotTokensAreSize(AnchorLine, m.seeds, slots.anchor);
    SlotTokensAreSize(EdgeLine, m.edges, slots.subgraph);
    assert Image(AnchorLine, m.seeds) == seq(|m.seeds|, i requires 0 <= i < |m.seeds| => m.seeds[i].line);
    assert Image(EdgeLine, m.edges) == seq(|m.edges|, i requires 0 <= i < |m.edges| => m.edges[i].line);
  }

  /** Totals: the six slots together, their share of the caller's budget, and nothing for a budget of zero. */
  lemma TotalFields(m: Material, lib: Library, slots: SlotBudgets, max: int)
    ensures var r := Assembled(m, lib, slots, max);
      && r.counts.budget == max && r.counts.total == r.totalTokens
      && r.totalTokens == r.counts.anchor + r.counts.subgraph + r.counts.wikiPage + r.counts.seedChunks
                          + r.counts.hopChunks + r.counts.instruction
      && r.counts.utilization == lib.round(if max == 0 then 0.0 else r.totalTokens as real / max as real)
      && r.counts.seedChunks == Cost(ShownText, r.seedChunks) && r.counts.hopChunks == Cost(ShownText, r.hopChunks)
  {
    hide SlotTokens, WikiTokens, SnapshotFor, SeedSlot, HopSlot, Cost, Elastic;
  }

  // ---- The chunk slots ----

  /** What the fixed slots leave of the budget is the pool. Without a pool, or without any entity, there are no chunks
      and none is counted. Otherwise the seeds' survivors are cut to the share of the pool that the library gives them
      and the other survivors to the rest. */
  lemma ChunkFields(m: Material, lib: Library, slots: SlotBudgets, max: int)
    ensures var r := Assembled(m, lib, slots, max);
      var pool := max - r.counts.anchor - r.counts.subgraph - r.counts.wikiPage - r.counts.instruction;
      if pool <= 0 || (m.seeds == [] && m.hops == []) then
        r.seedChunks == [] && r.hopChunks == [] && r.chunksFetched == 0 && r.chunksAfterDedup == 0
      else
        && LongestFit(ShownText, Image(ShowSeed, SeedSurvivors(m, lib)), lib.share(pool), |r.seedChunks|)
        && LongestFit(ShownText, Image(ShowHop(m.hopMap), HopSurvivors(m, lib)), pool - lib.share(pool),
                      |r.hopChunks|)
        && r.seedChunks <= Image(ShowSeed, SeedSurvivors(m, lib))
        && r.hopChunks <= Image(ShowHop(m.hopMap), HopSurvivors(m, lib))
  {
    hide *;
    PoolIs(m, lib, slots, max);
    EntitiesAre(m);
    SlotsAreLongest(m, lib, Elastic(max, FixedTokens(m, lib, slots)));
  }

  lemma SlotsAreLongest(m: Material, lib: Library, elastic: nat)
    ensures EntityIds(m) == {} || elastic == 0 ==>
      && SeedSlot(m, lib, elastic) == [] && HopSlot(m, lib, elastic) == []
      && ChunksFetched(m, elastic) == 0 && ChunksAfterDedup(m, lib, elastic) == 0
    ensures EntityIds(m) != {} && elastic > 0 ==>
      var seeds, hops := Image(ShowSeed, SeedSurvivors(m, lib)), Image(ShowHop(m.hopMap), HopSurvivors(m, lib));
      && LongestFit(ShownText, seeds, lib.share(elastic), |SeedSlot(m, lib, elastic)|)
      && LongestFit(ShownText, hops, elastic - lib.share(elastic), |HopSlot(m, lib, elastic)|)
      && SeedSlot(m, lib, elastic) <= seeds && HopSlot(m, lib, elastic) <= hops
  {
    FittingIsLongest(ShownText, Image(ShowSeed, SeedSurvivors(m, lib)), lib.share(elastic));
    FittingIsLongest(ShownText, Image(ShowHop(m.hopMap), HopSurvivors(m, lib)), elastic - lib.share(elastic));
    hide Fitting, LongestFit, SeedSurvivors, HopSurvivors, EntityIds, Rows, SeedIds, SeedPairs, HopPairs;
  }

  /** The entities of an assembly are the seeds' and those the traversal kept. */
  lemma EntitiesAre(m: Material)
    ensures forall e :: e in SeedIds(m) <==> exists i :: 0 <= i < |m.seeds| && m.seeds[i].entity == e
    ensures forall e :: e in EntityIds(m) <==> e in SeedIds(m) || e in m.hops
    ensures EntityIds(m) == {} <==> m.seeds == [] && m.hops == []
  {
    forall e ensures e in SeedIds(m) <==> exists i :: 0 <= i < |m.seeds| && m.seeds[i].entity == e {
      if i :| 0 <= i < |m.seeds| && m.seeds[i].entity == e {
        assert m.seeds[i] in m.seeds;
      }
    }
    if m.seeds != [] {
      assert m.seeds[0] in m.seeds && m.seeds[0].entity in EntityIds(m);
    }
    if m.hops != [] {
      assert m.hops[0] in m.hops && m.hops[0] in EntityIds(m);
    }
  }

  lemma PoolIs(m: Material, lib: Library, slots: SlotBudgets, max: int)
    ensures var r, elastic := Assembled(m, lib, slots, max), Elastic(max, FixedTokens(m, lib, slots));
      && elastic == (var pool := max - r.counts.anchor - r.counts.subgraph - r.counts.wikiPage - r.counts.instruction;
                     if pool <= 0 then 0 else pool)
      && r.seedChunks == SeedSlot(m, lib, elastic) && r.hopChunks == HopSlot(m, lib, elastic)
      && r.chunksFetched == ChunksFetched(m, elastic) && r.chunksAfterDedup == ChunksAfterDedup(m, lib, elastic)
  {
    hide SlotTokens, WikiTokens, SnapshotFor, SeedSlot, HopSlot, Cost, Utilization, ChunksFetched, ChunksAfterDedup,
      AssembledTotal;
  }

  /** The fetched chunks that some row links to a seed or a traversed entity. */
  ghost function LinkedChunks(m: Material): set<Id> {
    set id | id in m.chunks && exists l :: l in m.links && l.chunk == id && l.entity in EntityIds(m)
  }

  /** With a pool and an entity, those chunks are counted as fetched, and the survivors of one de-duplication over all
      of them, seeds first, as left. */
  lemma CountFields(m: Material, lib: Library, elastic: nat)
    requires FetchedChunks(m.chunks) && EntityIds(m) != {} && elastic > 0
    ensures ChunksFetched(m, elastic) == |LinkedChunks(m)|
    ensures ChunksAfterDedup(m, lib, elastic)
         == |Deduped(lib.scoring.similar, SeedScored(m, lib) + HopScored(m, lib))|
  {
    FetchedAreLinked(m);
    ScoredSidesAreDistinct(lib.scoring, Rows(m), m.chunks, SeedIds(m));
    SurvivorsTogether(m, lib);
    hide SeedPairs, HopPairs, Rows, SeedIds, Deduped, SeedScored, HopScored, LinkedChunks, EntityIds;
  }

  lemma SurvivorsTogether(m: Material, lib: Library)
    requires Distinct(Image(ChunkId, SeedScored(m, lib) + HopScored(m, lib)))
    ensures |SeedSurvivors(m, lib)| + |HopSurvivors(m, lib)|
         == |Deduped(lib.scoring.similar, SeedScored(m, lib) + HopScored(m, lib))|
  {
    hide SeedScored, HopScored, Deduped, Keep, Ids;
    SeedsIgnoreHops(lib.scoring.similar, SeedScored(m, lib), HopScored(m, lib));
  }

  lemma {:induction false} DistinctSize<A>(s: seq<A>)
    requires Distinct(s)
    ensures |Members(s)| == |s|
  {
    if s == [] {
    } else {
      var n := |s| - 1;
      assert s == s[..n] + [s[n]];
      DistinctSize(s[..n]);
      MembersAppend(s[..n], s[n]);
    }
  }

  lemma FetchedAreLinked(m: Material)
    requires FetchedChunks(m.chunks)
    ensures var order := ChunkOrder(Rows(m));
      |SeedPairs(Rows(m), m.chunks, SeedIds(m), order)| + |HopPairs(Rows(m), m.chunks, SeedIds(m), order)|
        == |LinkedChunks(m)|
  {
    hide *;
    var rows, seeds := Rows(m), SeedIds(m);
    var order := ChunkOrder(rows);
    OrderIsDistinct(rows);
    SeedPairsExactly(rows, m.chunks, seeds, order);
    HopPairsExactly(rows, m.chunks, seeds, order);
    var a := Image(PairId, SeedPairs(rows, m.chunks, seeds, order));
    var b := Image(PairId, HopPairs(rows, m.chunks, seeds, order));
    DistinctSize(a);
    DistinctSize(b);
    MembersAre(a);
    MembersAre(b);
    forall id ensures id !in Members(a) || id !in Members(b) {
      assert id in a && id in b ==> SeedLinked(rows, seeds, id);
    }
    assert Members(a) !! Members(b);
    assert Members(a) + Members(b) == LinkedChunks(m) by {
      forall id ensures id in Members(a) + Members(b) <==> id in LinkedChunks(m) {
        LinkedIs(m, id);
      }
    }
  }

  lemma MembersAre(s: seq<Id>)
    ensures forall x :: x in Members(s) <==> x in s
  {
  }

  lemma OrderIsDistinct(links: seq<Link>)
    ensures Distinct(ChunkOrder(links))
    ensures forall id :: id in ChunkOrder(links) <==> Linked(links, id)
  {
    FirstPerKeyKeys(LinkChunk, links);
    forall id ensures id in ChunkOrder(links) <==> Linked(links, id) {
      if id in ChunkOrder(links) {
        var i :| 0 <= i < |links| && Image(LinkChunk, links)[i] == id;
        assert LinkedTo(links, id, links[i].entity);
      }
      if Linked(links, id) {
        var e :| LinkedTo(links, id, e);
        var i :| 0 <= i < |links| && links[i] == Link(id, e);
        assert Image(LinkChunk, links)[i] == id;
      }
    }
  }

  lemma LinkedIs(m: Material, id: Id)
    ensures id in LinkedChunks(m) <==> id in m.chunks && Linked(Rows(m), id)
    ensures SeedLinked(Rows(m), SeedIds(m), id) ==> Linked(Rows(m), id)
  {
    if id in LinkedChunks(m) {
      var l :| l in m.links && l.chunk == id && l.entity in EntityIds(m);
      assert LinkedTo(Rows(m), id, l.entity);
    }
  }
}
