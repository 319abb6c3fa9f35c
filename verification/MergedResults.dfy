/** What merging two results gives, column by column and list by list; merging
    more is merging two at a time. */
module MergedResults {
  import opened Sequences
  import opened ContextAssembly
  import opened ResultMerging

  /** kept holds the rows that are like no row before them, in their order. */
  ghost predicate KeepsFirst<A(!new)>(alike: (A, A) -> bool, rows: seq<A>, kept: seq<A>) {
    exists at: seq<nat> :: PicksAt(rows, kept, at) &&
      forall i: nat :: i < |rows| ==> (i in at <==> forall j :: 0 <= j < i ==> !alike(rows[j], rows[i]))
  }

  lemma FirstPerKeyKeepsFirst<A(!new), K(!new)>(key: A -> K, alike: (A, A) -> bool, rows: seq<A>)
    requires forall x, y :: alike(x, y) <==> key(x) == key(y)
    ensures KeepsFirst(alike, rows, FirstPerKey(key, rows))
  {
    var at := FirstsStandAt(key, rows);
    hide FirstPerKey, PicksAt;
    forall i: nat | i < |rows|
      ensures i in at <==> forall j :: 0 <= j < i ==> !alike(rows[j], rows[i])
    {
      assert i in at <==> IsFirst(key, rows, i);
    }
  }

  lemma RowsOfTwo<A>(rows: RetrievalResult -> seq<A>, a: RetrievalResult, b: RetrievalResult)
    ensures AllRows(rows, [a, b]) == rows(a) + rows(b)
  {
    AllRowsAppend(rows, [], a);
    AllRowsAppend(rows, [a], b);
    NoRows<A, bool>(rows, _ => true);
    assert [] + [a] == [a] && [a] + [b] == [a, b] && [] + rows(a) == rows(a);
  }

  lemma SumOfTwo(column: RetrievalResult -> nat, a: RetrievalResult, b: RetrievalResult)
    ensures Sum(column, [a, b]) == column(a) + column(b)
  {
    assert [a, b][..1] == [a] && [a][..0] == [];
    assert Sum(column, [a]) == column(a);
  }

  /** Every token count, the total and the traversal counts add up; the budget is the larger one; query, time and
      page are the first result's, its page only if it has one. */
  lemma ColumnsOfTwo(a: RetrievalResult, b: RetrievalResult)
    ensures var r := Merged([a, b]);
      && r.query == a.query && r.retrievedAt == a.retrievedAt
      && r.wikiPage == (if a.wikiPage.Some? then a.wikiPage else b.wikiPage)
      && r.totalTokens == r.counts.total == a.totalTokens + b.totalTokens
      && r.counts.anchor == a.counts.anchor + b.counts.anchor
      && r.counts.subgraph == a.counts.subgraph + b.counts.subgraph
      && r.counts.wikiPage == a.counts.wikiPage + b.counts.wikiPage
      && r.counts.seedChunks == a.counts.seedChunks + b.counts.seedChunks
      && r.counts.hopChunks == a.counts.hopChunks + b.counts.hopChunks
      && r.counts.instruction == a.counts.instruction + b.counts.instruction
      && r.counts.budget == (if a.counts.budget < b.counts.budget then b.counts.budget else a.counts.budget)
      && (r.counts.budget != 0 ==> r.counts.utilization * r.counts.budget as real == r.totalTokens as real)
      && (r.counts.budget == 0 ==> r.counts.utilization == 0.0)
      && r.entitiesTraversed == a.entitiesTraversed + b.entitiesTraversed
      && r.entitiesAfterTruncation == a.entitiesAfterTruncation + b.entitiesAfterTruncation
      && r.chunksFetched == a.chunksFetched + b.chunksFetched
  {
    SumOfTwo(TotalOf, a, b);
    SumOfTwo(AnchorOf, a, b);
    SumOfTwo(SubgraphOf, a, b);
    SumOfTwo(WikiOf, a, b);
    SumOfTwo(SeedTokensOf, a, b);
    SumOfTwo(HopTokensOf, a, b);
    SumOfTwo(InstructionOf, a, b);
    SumOfTwo(TraversedOf, a, b);
    SumOfTwo(TruncatedOf, a, b);
    SumOfTwo(FetchedOf, a, b);
    PageAndBudgetOfTwo(a, b);
    hide Sum, FirstPage, MaxBudget, FirstRows, ShownIds;
  }

  lemma PageAndBudgetOfTwo(a: RetrievalResult, b: RetrievalResult)
    ensures FirstPage([a, b]) == if a.wikiPage.Some? then a.wikiPage else b.wikiPage
    ensures MaxBudget([a, b]) == if a.counts.budget < b.counts.budget then b.counts.budget else a.counts.budget
  {
    assert [a, b][..1] == [a] && [a][..0] == [];
    assert FirstPage([a]) == a.wikiPage;
  }

  /** Seeds are merged by entity, edges by both ends and the relation, chunks by id; what counts as shown is every
      chunk of either result, once. */
  lemma ListsOfTwo(a: RetrievalResult, b: RetrievalResult)
    ensures var r := Merged([a, b]);
      && KeepsFirst((x: Seed, y: Seed) => x.entity == y.entity, a.seeds + b.seeds, r.seeds)
      && KeepsFirst((x: Edge, y: Edge) => x.source == y.source && x.relation == y.relation && x.target == y.target,
                    a.subgraph + b.subgraph, r.subgraph)
      && KeepsFirst((x: Shown, y: Shown) => x.chunk == y.chunk, a.seedChunks + b.seedChunks, r.seedChunks)
      && KeepsFirst((x: Shown, y: Shown) => x.chunk == y.chunk, a.hopChunks + b.hopChunks, r.hopChunks)
      && r.chunksAfterDedup
         == |set s | s in a.seedChunks + b.seedChunks + a.hopChunks + b.hopChunks :: s.chunk|
  {
    ListsAre(a, b);
    hide *;
    SeedsOfTwo(a.seeds + b.seeds);
    EdgesOfTwo(a.subgraph + b.subgraph);
    ChunksOfTwo(a.seedChunks + b.seedChunks);
    ChunksOfTwo(a.hopChunks + b.hopChunks);
    assert (set s | s in a.seedChunks + b.seedChunks + a.hopChunks + b.hopChunks :: s.chunk)
        == (set s | s in a.seedChunks + b.seedChunks :: s.chunk) + set s | s in a.hopChunks + b.hopChunks :: s.chunk;
  }

  lemma ListsAre(a: RetrievalResult, b: RetrievalResult)
    ensures var r := Merged([a, b]);
      && r.seeds == FirstPerKey(SeedId, a.seeds + b.seeds)
      && r.subgraph == FirstPerKey(KeyOfEdge, a.subgraph + b.subgraph)
      && r.seedChunks == FirstPerKey(ShownId, a.seedChunks + b.seedChunks)
      && r.hopChunks == FirstPerKey(ShownId, a.hopChunks + b.hopChunks)
      && r.chunksAfterDedup == |(set s | s in a.seedChunks + b.seedChunks :: s.chunk)
                                + set s | s in a.hopChunks + b.hopChunks :: s.chunk|
  {
    RowsOfTwo(SeedsOf, a, b);
    RowsOfTwo(EdgesOf, a, b);
    RowsOfTwo(SeedChunksOf, a, b);
    RowsOfTwo(HopChunksOf, a, b);
    hide AllRows, FirstPerKey, Sum, FirstPage, MaxBudget, Utilization;
  }

  lemma SeedsOfTwo(rows: seq<Seed>)
    ensures KeepsFirst((x: Seed, y: Seed) => x.entity == y.entity, rows, FirstPerKey(SeedId, rows))
  {
    hide KeepsFirst, FirstPerKey;
    FirstPerKeyKeepsFirst(SeedId, (x: Seed, y: Seed) => x.entity == y.entity, rows);
  }

  lemma EdgesOfTwo(rows: seq<Edge>)
    ensures KeepsFirst((x: Edge, y: Edge) => x.source == y.source && x.relation == y.relation && x.target == y.target,
                       rows, FirstPerKey(KeyOfEdge, rows))
  {
    hide KeepsFirst, FirstPerKey;
    FirstPerKeyKeepsFirst(KeyOfEdge,
      (x: Edge, y: Edge) => x.source == y.source && x.relation == y.relation && x.target == y.target, rows);
  }

  lemma ChunksOfTwo(rows: seq<Shown>)
    ensures KeepsFirst((x: Shown, y: Shown) => x.chunk == y.chunk, rows, FirstPerKey(ShownId, rows))
  {
    hide KeepsFirst, FirstPerKey;
    FirstPerKeyKeepsFirst(ShownId, (x: Shown, y: Shown) => x.chunk == y.chunk, rows);
  }

  /** One result is its own merge, and further results are merged in one at a time. */
  lemma MergedOneByOne(a: RetrievalResult, results: Results, b: RetrievalResult)
    requires results != []
    ensures Merged([a]) == a
    ensures Merged(results + [b]) == Merged([Merged(results), b])
  {
    hide *;
    OneIsItself(a);
    MergeIsAssociative(results, [b]);
    assert [Merged(results)] + [b] == [Merged(results), b];
  }

  lemma OneIsItself(a: RetrievalResult)
    ensures Merged([a]) == a
  {
  }
}
