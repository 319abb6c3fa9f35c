/** Merging the per-entity results of a comparison query, and whether the
    merged result stays within the caller's budget. */
module ResultMerging {
  import opened Sequences
  import opened Budgets
  import opened Deduplication
  import opened ContextAssembly

  type EdgeKey = (string, string, string)

  function KeyOfEdge(e: Edge): EdgeKey { (e.source, e.relation, e.target) }

  function SeedsOf(r: RetrievalResult): seq<Seed> { r.seeds }
  function EdgesOf(r: RetrievalResult): seq<Edge> { r.subgraph }
  function SeedChunksOf(r: RetrievalResult): seq<Shown> { r.seedChunks }
  function HopChunksOf(r: RetrievalResult): seq<Shown> { r.hopChunks }

  function AnchorOf(r: RetrievalResult): nat { r.counts.anchor }
  function SubgraphOf(r: RetrievalResult): nat { r.counts.subgraph }
  function WikiOf(r: RetrievalResult): nat { r.counts.wikiPage }
  function SeedTokensOf(r: RetrievalResult): nat { r.counts.seedChunks }
  function HopTokensOf(r: RetrievalResult): nat { r.counts.hopChunks }
  function InstructionOf(r: RetrievalResult): nat { r.counts.instruction }
  function TotalOf(r: RetrievalResult): nat { r.totalTokens }
  function TraversedOf(r: RetrievalResult): nat { r.entitiesTraversed }
  function TruncatedOf(r: RetrievalResult): nat { r.entitiesAfterTruncation }
  function FetchedOf(r: RetrievalResult): nat { r.chunksFetched }

  type Results = seq<RetrievalResult>

  function Sum(column: RetrievalResult -> nat, results: Results): nat {
    if results == [] then 0 else Sum(column, results[..|results| - 1]) + column(results[|results| - 1])
  }

  function MaxBudget(results: Results): int
    requires results != []
  {
    var last := results[|results| - 1].counts.budget;
    if |results| == 1 then last
    else
      var rest := MaxBudget(results[..|results| - 1]);
      if last > rest then last else rest
  }

  function FirstPage(results: Results): Option<W.Snapshot> {
    if results == [] then None
    else
      var front := FirstPage(results[..|results| - 1]);
      if front.Some? then front else results[|results| - 1].wikiPage
  }

  /** All rows of one list, over all results. */
  function AllRows<A>(rows: RetrievalResult -> seq<A>, results: Results): seq<A> { Flatten(Image(rows, results)) }

  /** The first row of each key, over all results. */
  function FirstRows<A, K(==)>(rows: RetrievalResult -> seq<A>, key: A -> K, results: Results): seq<A> {
    FirstPerKey(key, AllRows(rows, results))
  }

  /** Every chunk id any result shows. */
  function ShownIds(results: Results): set<Id> {
    (set s | s in AllRows(SeedChunksOf, results) :: s.chunk) + set s | s in AllRows(HopChunksOf, results) :: s.chunk
  }

  function Merged(results: Results): RetrievalResult
    requires results != []
  {
    if |results| == 1 then results[0]
    else
      var total := Sum(TotalOf, results);
      RetrievalResult(
        results[0].query, results[0].retrievedAt,
        FirstRows(SeedsOf, SeedId, results), FirstRows(EdgesOf, KeyOfEdge, results), FirstPage(results),
        FirstRows(SeedChunksOf, ShownId, results), FirstRows(HopChunksOf, ShownId, results),
        SlotCounts(Sum(AnchorOf, results), Sum(SubgraphOf, results), Sum(WikiOf, results), Sum(SeedTokensOf, results),
          Sum(HopTokensOf, results), Sum(InstructionOf, results), total, MaxBudget(results),
          Utilization(total, MaxBudget(results))),
        total, Sum(TraversedOf, results), Sum(TruncatedOf, results), Sum(FetchedOf, results), |ShownIds(results)|)
  }

  // ---- The merge itself ----

  /** One of the four nested loops: rows of every result whose key has not been seen yet. */
  method CollectFirst<A(!new), K(==, !new)>(rows: RetrievalResult -> seq<A>, key: A -> K, results: Results)
    returns (merged: seq<A>)
    ensures merged == FirstRows(rows, key, results)
  {
    hide FirstPerKey, AllRows;
    merged := [];
    var seen: set<K> := {};
    NoRows(rows, key);
    ghost var done: seq<A> := [];
    var i := 0;
    while i < |results|
      invariant 0 <= i <= |results| && done == AllRows(rows, results[..i])
      invariant merged == FirstPerKey(key, done) && forall k :: k in seen <==> k in Image(key, done)
    {
      assert results[..i + 1] == results[..i] + [results[i]];
      AllRowsAppend(rows, results[..i], results[i]);
      var group := rows(results[i]);
      ghost var start := done;
      var j := 0;
      while j < |group|
        invariant 0 <= j <= |group| && done == start + group[..j]
        invariant merged == FirstPerKey(key, done) && forall k :: k in seen <==> k in Image(key, done)
      {
        var row := group[j];
        assert start + group[..j + 1] == done + [row];
        FirstsNext(key, done, row);
        if key(row) !in seen {
          seen := seen + {key(row)};
          merged := merged + [row];
        }
        done := done + [row];
        j := j + 1;
      }
      assert group[..j] == group;
      i := i + 1;
    }
    assert results[..i] == results;
  }

  lemma NoRows<A, K>(rows: RetrievalResult -> seq<A>, key: A -> K)
    ensures AllRows(rows, []) == [] && FirstPerKey(key, []) == []
  {
    assert Image(rows, []) == [];
  }

  /** merge_retrieval_results; an empty list is refused. */
  method MergeRetrievalResults(results: Results) returns (merged: Option<RetrievalResult>)
    ensures merged == if results == [] then None else Some(Merged(results))
  {
    if results == [] {
      return None;
    }
    if |results| == 1 {
      return Some(results[0]);
    }
    var seeds := CollectFirst(SeedsOf, SeedId, results);
    var edges := CollectFirst(EdgesOf, KeyOfEdge, results);
    var seedChunks := CollectFirst(SeedChunksOf, ShownId, results);
    var hopChunks := CollectFirst(HopChunksOf, ShownId, results);
    var total, budget := Sum(TotalOf, results), MaxBudget(results);
    merged := Some(RetrievalResult(results[0].query, results[0].retrievedAt, seeds, edges, FirstPage(results),
                                   seedChunks, hopChunks,
      SlotCounts(Sum(AnchorOf, results), Sum(SubgraphOf, results), Sum(WikiOf, results), Sum(SeedTokensOf, results),
        Sum(HopTokensOf, results), Sum(InstructionOf, results), total, budget, Utilization(total, budget)),
      total, Sum(TraversedOf, results), Sum(TruncatedOf, results), Sum(FetchedOf, results), |ShownIds(results)|));
  }

  lemma AllRowsAppend<A>(rows: RetrievalResult -> seq<A>, results: Results, r: RetrievalResult)
    ensures AllRows(rows, results + [r]) == AllRows(rows, results) + rows(r)
  {
    ImageAppend(rows, results, r);
    FlattenAppend(Image(rows, results), rows(r));
  }

  // ---- Associativity ----

  lemma {:induction false} SumConcat(column: RetrievalResult -> nat, a: Results, b: Results)
    ensures Sum(column, a + b) == Sum(column, a) + Sum(column, b)
  {
    if b == [] {
      assert a + b == a;
    } else {
      assert (a + b)[..|a + b| - 1] == a + b[..|b| - 1];
      SumConcat(column, a, b[..|b| - 1]);
    }
  }

  lemma {:induction false} MaxBudgetConcat(a: Results, b: Results)
    requires a != []
    ensures b != [] ==> MaxBudget(a + b) == if MaxBudget(b) > MaxBudget(a) then MaxBudget(b) else MaxBudget(a)
  {
    if |b| == 1 {
      assert (a + b)[..|a|] == a;
    } else if b != [] {
      assert (a + b)[..|a + b| - 1] == a + b[..|b| - 1];
      MaxBudgetConcat(a, b[..|b| - 1]);
    }
  }

  lemma {:induction false} FirstPageConcat(a: Results, b: Results)
    ensures FirstPage(a + b) == if FirstPage(a).Some? then FirstPage(a) else FirstPage(b)
  {
    if b == [] {
      assert a + b == a;
    } else {
      assert (a + b)[..|a + b| - 1] == a + b[..|b| - 1];
      FirstPageConcat(a, b[..|b| - 1]);
    }
  }

  lemma {:induction false} FlattenConcat<A>(a: seq<seq<A>>, b: seq<seq<A>>)
    ensures Flatten(a + b) == Flatten(a) + Flatten(b)
  {
    if b == [] {
      assert a + b == a;
    } else {
      var n := |b| - 1;
      assert a + b == a + b[..n] + [b[n]] && b == b[..n] + [b[n]];
      FlattenConcat(a, b[..n]);
      hide *;
      FlattenAppend(a + b[..n], b[n]);
      FlattenAppend(b[..n], b[n]);
    }
  }

  lemma AllRowsConcat<A>(rows: RetrievalResult -> seq<A>, a: Results, b: Results)
    ensures AllRows(rows, a + b) == AllRows(rows, a) + AllRows(rows, b)
  {
    ImageConcat(rows, a, b);
    FlattenConcat(Image(rows, a), Image(rows, b));
  }

  /** First occurrences over a + b see a only through its own first occurrences. */
  lemma {:induction false} FirstPerKeyOfFirsts<A(!new), K(!new)>(key: A -> K, a: seq<A>, b: seq<A>)
    ensures FirstPerKey(key, FirstPerKey(key, a) + b) == FirstPerKey(key, a + b)
  {
    var firsts := FirstPerKey(key, a);
    FirstPerKeyKeys(key, a);
    if b == [] {
      assert firsts + b == firsts && a + b == a;
      FirstPerKeyOfDistinct(key, firsts);
    } else {
      var n := |b| - 1;
      assert (a + b)[..|a + b| - 1] == a + b[..n] && (firsts + b)[..|firsts + b| - 1] == firsts + b[..n];
      FirstPerKeyOfFirsts(key, a, b[..n]);
      ImageConcat(key, a, b[..n]);
      ImageConcat(key, firsts, b[..n]);
    }
  }

  lemma FirstRowsAssociate<A(!new), K(!new)>(rows: RetrievalResult -> seq<A>, key: A -> K, p: Results,
                                             m: RetrievalResult, rest: Results)
    requires rows(m) == FirstRows(rows, key, p)
    ensures FirstRows(rows, key, [m] + rest) == FirstRows(rows, key, p + rest)
  {
    AllRowsConcat(rows, [m], rest);
    AllRowsConcat(rows, p, rest);
    assert AllRows(rows, [m]) == rows(m) by {
      AllRowsAppend(rows, [], m);
      assert [] + [m] == [m] && Image(rows, []) == [] && [] + rows(m) == rows(m);
    }
    FirstPerKeyOfFirsts(key, AllRows(rows, p), AllRows(rows, rest));
  }

  lemma {:induction false} FirstsKeepKeys<A(!new)>(key: A -> Id, s: seq<A>)
    ensures KeySet(key, FirstPerKey(key, s)) == KeySet(key, s)
  {
    FirstPerKeyKeys(key, s);
    forall k ensures k in KeySet(key, FirstPerKey(key, s)) <==> k in KeySet(key, s) {
      KeySetIsImage(key, s, k);
      KeySetIsImage(key, FirstPerKey(key, s), k);
    }
  }

  function KeySet<A>(key: A -> Id, s: seq<A>): set<Id> { set i | 0 <= i < |s| :: key(s[i]) }

  lemma KeySetIsImage<A>(key: A -> Id, s: seq<A>, k: Id)
    ensures k in KeySet(key, s) <==> k in Image(key, s)
  {
    if k in Image(key, s) {
      var i :| 0 <= i < |s| && Image(key, s)[i] == k;
      assert key(s[i]) == k;
    }
    if k in KeySet(key, s) {
      var i :| 0 <= i < |s| && key(s[i]) == k;
      assert Image(key, s)[i] == k;
    }
  }

  lemma ShownIdsAreKeys(results: Results)
    ensures ShownIds(results)
        == KeySet(ShownId, AllRows(SeedChunksOf, results)) + KeySet(ShownId, AllRows(HopChunksOf, results))
  {
  }

  lemma ShownIdsAssociate(p: Results, m: RetrievalResult, rest: Results)
    requires m.seedChunks == FirstRows(SeedChunksOf, ShownId, p) && m.hopChunks == FirstRows(HopChunksOf, ShownId, p)
    ensures ShownIds([m] + rest) == ShownIds(p + rest)
  {
    ShownIdsAreKeys([m] + rest);
    ShownIdsAreKeys(p + rest);
    KeySetAssociates(SeedChunksOf, p, m, rest);
    KeySetAssociates(HopChunksOf, p, m, rest);
  }

  lemma KeySetAssociates(rows: RetrievalResult -> seq<Shown>, p: Results, m: RetrievalResult, rest: Results)
    requires rows(m) == FirstRows(rows, ShownId, p)
    ensures KeySet(ShownId, AllRows(rows, [m] + rest)) == KeySet(ShownId, AllRows(rows, p + rest))
  {
    FirstRowsAssociate(rows, ShownId, p, m, rest);
    FirstsKeepKeys(ShownId, AllRows(rows, [m] + rest));
    FirstsKeepKeys(ShownId, AllRows(rows, p + rest));
  }

  lemma SumAssociates(column: RetrievalResult -> nat, p: Results, m: RetrievalResult, rest: Results)
    requires column(m) == Sum(column, p)
    ensures Sum(column, [m] + rest) == Sum(column, p + rest)
  {
    SumConcat(column, [m], rest);
    SumConcat(column, p, rest);
    assert [m][..0] == [];
  }

  lemma SumsAssociate(p: Results, m: RetrievalResult, rest: Results)
    requires |p| > 1 && m == Merged(p)
    ensures Sum(AnchorOf, [m] + rest) == Sum(AnchorOf, p + rest)
    ensures Sum(SubgraphOf, [m] + rest) == Sum(SubgraphOf, p + rest)
    ensures Sum(WikiOf, [m] + rest) == Sum(WikiOf, p + rest)
    ensures Sum(SeedTokensOf, [m] + rest) == Sum(SeedTokensOf, p + rest)
    ensures Sum(HopTokensOf, [m] + rest) == Sum(HopTokensOf, p + rest)
    ensures Sum(InstructionOf, [m] + rest) == Sum(InstructionOf, p + rest)
    ensures Sum(TotalOf, [m] + rest) == Sum(TotalOf, p + rest)
    ensures Sum(TraversedOf, [m] + rest) == Sum(TraversedOf, p + rest)
    ensures Sum(TruncatedOf, [m] + rest) == Sum(TruncatedOf, p + rest)
    ensures Sum(FetchedOf, [m] + rest) == Sum(FetchedOf, p + rest)
  {
    SumAssociates(AnchorOf, p, m, rest);
    SumAssociates(SubgraphOf, p, m, rest);
    SumAssociates(WikiOf, p, m, rest);
    SumAssociates(SeedTokensOf, p, m, rest);
    SumAssociates(HopTokensOf, p, m, rest);
    SumAssociates(InstructionOf, p, m, rest);
    SumAssociates(TotalOf, p, m, rest);
    SumAssociates(TraversedOf, p, m, rest);
    SumAssociates(TruncatedOf, p, m, rest);
    SumAssociates(FetchedOf, p, m, rest);
  }

  /** Merging a merged prefix with the rest is merging everything at once. */
  lemma MergeIsAssociative(p: Results, rest: Results)
    requires p != []
    ensures Merged([Merged(p)] + rest) == Merged(p + rest)
  {
    var m := Merged(p);
    if |p| == 1 {
      assert [m] + rest == p + rest;
    } else if rest == [] {
      assert [m] + rest == [m] && p + rest == p;
    } else {
      SumsAssociate(p, m, rest);
      FirstRowsAssociate(SeedsOf, SeedId, p, m, rest);
      FirstRowsAssociate(EdgesOf, KeyOfEdge, p, m, rest);
      FirstRowsAssociate(SeedChunksOf, ShownId, p, m, rest);
      FirstRowsAssociate(HopChunksOf, ShownId, p, m, rest);
      ShownIdsAssociate(p, m, rest);
      MaxBudgetConcat([m], rest);
      MaxBudgetConcat(p, rest);
      FirstPageConcat([m], rest);
      FirstPageConcat(p, rest);
      assert [m][..0] == [];
      assert FirstPage([m]) == FirstPage(p);
      assert MaxBudget([m]) == MaxBudget(p);
      assert ([m] + rest)[0] == m && (p + rest)[0] == p[0];
      hide Sum, FirstRows, FirstPage, MaxBudget, ShownIds, Utilization;
    }
  }

  // ---- What merging keeps ----

  lemma {:induction false} CostOfFirsts<K>(key: Shown -> K, s: seq<Shown>)
    ensures Cost(ShownText, FirstPerKey(key, s)) <= Cost(ShownText, s)
  {
    if s == [] {
    } else {
      var n := |s| - 1;
      CostOfFirsts(key, s[..n]);
      CostAppend(ShownText, FirstPerKey(key, s[..n]), s[n]);
    }
  }

  lemma {:induction false} CostOfAllRows(rows: RetrievalResult -> seq<Shown>, column: RetrievalResult -> nat,
                                         results: Results)
    requires forall r :: r in results ==> Cost(ShownText, rows(r)) <= column(r)
    ensures Cost(ShownText, AllRows(rows, results)) <= Sum(column, results)
  {
    if results == [] {
    } else {
      var n := |results| - 1;
      assert results == results[..n] + [results[n]];
      CostOfAllRows(rows, column, results[..n]);
      AllRowsAppend(rows, results[..n], results[n]);
      CostConcat(ShownText, AllRows(rows, results[..n]), rows(results[n]));
    }
  }

  lemma {:induction false} SlotsSumToTotal(results: Results)
    requires forall r :: r in results ==> Accounted(r)
    ensures Sum(TotalOf, results) == Sum(AnchorOf, results) + Sum(SubgraphOf, results) + Sum(WikiOf, results)
      + Sum(SeedTokensOf, results) + Sum(HopTokensOf, results) + Sum(InstructionOf, results)
  {
    if results == [] {
    } else {
      var n := |results| - 1;
      SlotsSumToTotal(results[..n]);
      assert results[n] in results && Accounted(results[n]);
    }
  }

  /** Merging keeps the accounting: slots sum to the total and cover the chunks the merge still shows. */
  lemma MergeKeepsAccounts(results: Results)
    requires results != [] && forall r :: r in results ==> Accounted(r)
    ensures Accounted(Merged(results))
    ensures Merged(results).totalTokens == Sum(TotalOf, results)
  {
    if |results| == 1 {
      assert results[..0] == [];
    } else {
      SlotsSumToTotal(results);
      CostOfAllRows(SeedChunksOf, SeedTokensOf, results);
      CostOfAllRows(HopChunksOf, HopTokensOf, results);
      CostOfFirsts(ShownId, AllRows(SeedChunksOf, results));
      CostOfFirsts(ShownId, AllRows(HopChunksOf, results));
      assert FirstRows(SeedChunksOf, ShownId, results) == FirstPerKey(ShownId, AllRows(SeedChunksOf, results));
      assert FirstRows(HopChunksOf, ShownId, results) == FirstPerKey(ShownId, AllRows(HopChunksOf, results));
      hide Sum, AllRows, FirstPerKey, FirstRows, Cost, MaxBudget, FirstPage, ShownIds, Utilization;
    }
  }

  lemma SumAppend(column: RetrievalResult -> nat, results: Results, r: RetrievalResult)
    ensures Sum(column, results + [r]) == Sum(column, results) + column(r)
  {
    assert (results + [r])[..|results|] == results;
  }

  lemma MergedTotal(results: Results)
    requires results != []
    ensures Merged(results).totalTokens == Sum(TotalOf, results)
  {
    if |results| == 1 {
      assert results[..0] == [];
    }
  }
}
