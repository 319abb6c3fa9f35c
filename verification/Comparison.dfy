/** Comparison retrieval: one assembly per compared entity under an equal share
    of the caller's budget, and exactly when the merged result stays within it. */
module Comparison {
  import opened Sequences
  import opened Budgets
  import opened Deduplication
  import opened ChunkPairs
  import opened ContextAssembly
  import opened AssemblyLimits
  import opened ResultMerging

  /** The materials of the compared entities that have a seed, in order. */
  function Found(ms: seq<Option<Material>>): seq<Material> {
    if ms == [] then []
    else
      var n := |ms| - 1;
      Found(ms[..n]) + if ms[n].Some? then [ms[n].value] else []
  }

  function Share(max: int, n: nat): int
    requires n > 0
  {
    max / n
  }

  function AssembledWith(lib: Library, slots: SlotBudgets, share: int): Material -> RetrievalResult {
    (m: Material) => Assembled(m, lib, slots, share)
  }

  function Partials(ms: seq<Material>, lib: Library, slots: SlotBudgets, share: int): Results {
    Image(AssembledWith(lib, slots, share), ms)
  }

  // ---- Sums over the compared entities ----

  function SumFixed(ms: seq<Material>, lib: Library, slots: SlotBudgets): nat {
    if ms == [] then 0 else SumFixed(ms[..|ms| - 1], lib, slots) + FixedTokens(ms[|ms| - 1], lib, slots)
  }

  /** The most each entity can come to with its share of the budget. */
  ghost function SumCeilings(ms: seq<Material>, lib: Library, slots: SlotBudgets, share: int): nat {
    if ms == [] then 0 else SumCeilings(ms[..|ms| - 1], lib, slots, share) + Ceiling(ms[|ms| - 1], lib, slots, share)
  }

  /** The accounted total of the merged result. */
  function ComparisonTotal(ms: seq<Material>, lib: Library, slots: SlotBudgets, share: int): nat {
    Sum(TotalOf, Partials(ms, lib, slots, share))
  }

  lemma ComparisonTotalNext(ms: seq<Material>, m: Material, lib: Library, slots: SlotBudgets, share: int)
    ensures ComparisonTotal(ms + [m], lib, slots, share)
      == ComparisonTotal(ms, lib, slots, share) + AssembledTotal(m, lib, slots, share)
    ensures SumFixed(ms + [m], lib, slots) == SumFixed(ms, lib, slots) + FixedTokens(m, lib, slots)
    ensures SumCeilings(ms + [m], lib, slots, share)
        == SumCeilings(ms, lib, slots, share) + Ceiling(m, lib, slots, share)
  {
    hide FixedTokens, AssembledTotal, AssembledCounts, Ceiling;
    assert (ms + [m])[..|ms|] == ms;
    ImageAppend(AssembledWith(lib, slots, share), ms, m);
    SumAppend(TotalOf, Partials(ms, lib, slots, share), AssembledWith(lib, slots, share)(m));
  }

  lemma NothingCosts(lib: Library, slots: SlotBudgets, share: int)
    ensures ComparisonTotal([], lib, slots, share) == 0
    ensures SumFixed([], lib, slots) == 0 && SumCeilings([], lib, slots, share) == 0
  {
    assert Partials([], lib, slots, share) == [];
  }

  /** The total lies between the sum of the fixed slots and the sum of the ceilings. */
  lemma {:induction false} TotalBetween(ms: seq<Material>, lib: Library, slots: SlotBudgets, share: int)
    requires Shares(lib)
    ensures SumFixed(ms, lib, slots) <= ComparisonTotal(ms, lib, slots, share) <= SumCeilings(ms, lib, slots, share)
  {
    hide *;
    if ms == [] {
      NothingCosts(lib, slots, share);
    } else {
      var n := |ms| - 1;
      var front, m := ms[..n], ms[n];
      assert ms == front + [m];
      TotalBetween(front, lib, slots, share);
      ComparisonTotalNext(front, m, lib, slots, share);
      AssembledBelowCeiling(m, lib, slots, share);
    }
  }

  lemma {:induction false} CeilingsOfFitting(ms: seq<Material>, lib: Library, slots: SlotBudgets, share: int)
    requires Shares(lib) && forall m :: m in ms ==> FixedTokens(m, lib, slots) <= share
    ensures SumCeilings(ms, lib, slots, share) <= |ms| * share
  {
    hide FixedTokens, Ceiling, HasHops;
    if ms == [] {
    } else {
      var n := |ms| - 1;
      assert ms[n] in ms && FixedTokens(ms[n], lib, slots) <= share;
      CeilingIs(ms[n], lib, slots, share);
      CeilingsOfFitting(ms[..n], lib, slots, share);
      assert |ms| * share == n * share + share by { OneMore(n, share); }
    }
  }

  lemma OneMore(n: int, share: int)
    ensures (n + 1) * share == n * share + share
  {
  }

  lemma {:induction false} SumFixedAtLeast(ms: seq<Material>, lib: Library, slots: SlotBudgets)
    ensures SumFixed(ms, lib, slots) >= 38 * |ms|
  {
    hide FixedTokens;
    if ms == [] {
    } else {
      var n := |ms| - 1;
      SumFixedAtLeast(ms[..n], lib, slots);
      FixedTokensBound(ms[n], lib, slots);
    }
  }

  lemma ShareTimes(max: int, n: nat, found: nat)
    requires n > 0 && found <= n && Share(max, n) >= 0
    ensures found * Share(max, n) <= max
  {
    var share := max / n;
    assert n * share <= max;
    assert found * share <= n * share;
  }

  /** The share is the budget divided evenly and rounded down, whatever its sign. */
  lemma ShareIsFloor(max: int, n: nat)
    requires n > 0
    ensures n * Share(max, n) <= max < n * Share(max, n) + n
  {
  }

  /** When every compared entity's fixed slots fit its share, the merged result fits the caller's budget,
      whatever the chunks; it cannot fit when the fixed slots together exceed it, nor below 38 tokens an entity. */
  lemma ComparisonWithinBudget(ms: seq<Material>, n: nat, lib: Library, slots: SlotBudgets, max: int)
    requires Shares(lib) && ms != [] && |ms| <= n
    ensures (forall m :: m in ms ==> FixedTokens(m, lib, slots) <= Share(max, n)) ==>
      ComparisonTotal(ms, lib, slots, Share(max, n)) <= max
    ensures SumCeilings(ms, lib, slots, Share(max, n)) <= max ==>
      ComparisonTotal(ms, lib, slots, Share(max, n)) <= max
    ensures SumFixed(ms, lib, slots) > max ==> ComparisonTotal(ms, lib, slots, Share(max, n)) > max
    ensures max < 38 * |ms| ==> ComparisonTotal(ms, lib, slots, Share(max, n)) > max
  {
    hide *;
    var share := Share(max, n);
    TotalBetween(ms, lib, slots, share);
    SumFixedAtLeast(ms, lib, slots);
    if forall m :: m in ms ==> FixedTokens(m, lib, slots) <= share {
      FixedTokensBound(ms[0], lib, slots);
      assert ms[0] in ms;
      CeilingsOfFitting(ms, lib, slots, share);
      ShareTimes(max, n, |ms|);
    }
  }

  // ---- The retrieval ----

  lemma FoundNext(ms: seq<Option<Material>>, m: Option<Material>)
    ensures Found(ms + [m]) == Found(ms) + if m.Some? then [m.value] else []
  {
    assert (ms + [m])[..|ms|] == ms;
  }

  /** found holds the materials that are there, in the order of ms. */
  ghost predicate PicksFound(ms: seq<Option<Material>>, found: seq<Material>, at: seq<nat>) {
    && |at| == |found| && (forall k, l :: 0 <= k < l < |at| ==> at[k] < at[l])
    && (forall k :: 0 <= k < |at| ==> at[k] < |ms| && ms[at[k]] == Some(found[k]))
    && forall i: nat :: i < |ms| && ms[i].Some? ==> i in at
  }

  lemma FoundNextAt(ms: seq<Option<Material>>, n: nat, found: seq<Material>, at: seq<nat>)
    requires |ms| == n + 1 && PicksFound(ms[..n], found, at)
    ensures if ms[n].Some? then PicksFound(ms, found + [ms[n].value], at + [n]) else PicksFound(ms, found, at)
  {
    var after := if ms[n].Some? then at + [n] else at;
    forall i: nat | i < |ms| && ms[i].Some? ensures i in after {
      assert i < n ==> ms[..n][i].Some? && i in at;
      assert after[..|at|] == at;
    }
  }

  /** The entities found are those with material, in the order of the comparison. */
  lemma {:induction false} FoundAreInOrder(ms: seq<Option<Material>>) returns (at: seq<nat>)
    ensures PicksFound(ms, Found(ms), at)
  {
    if ms == [] {
      at := [];
    } else {
      hide PicksFound;
      var n := |ms| - 1;
      at := FoundAreInOrder(ms[..n]);
      FoundNextAt(ms, n, Found(ms[..n]), at);
      if ms[n].Some? {
        at := at + [n];
      } else {
        assert Found(ms[..n]) + [] == Found(ms[..n]);
      }
    }
  }

  lemma {:induction false} FoundAreFew(ms: seq<Option<Material>>)
    ensures |Found(ms)| <= |ms|
  {
    if ms == [] {
    } else {
      FoundAreFew(ms[..|ms| - 1]);
    }
  }

  /** _retrieve_comparison: ms holds, per compared entity, what seed finding and traversal gave, or nothing
      without a seed; single is the material of the single pass taken when nothing can be compared. */
  method RetrieveComparison(ms: seq<Option<Material>>, single: Material, lib: Library, slots: SlotBudgets, max: int)
    returns (result: RetrievalResult)
    requires Shares(lib) && FetchedChunks(single.chunks)
    requires forall m :: m in ms && m.Some? ==> FetchedChunks(m.value.chunks)
    ensures Found(ms) == [] ==> result == Assembled(single, lib, slots, max)
    ensures Found(ms) != [] ==> result == Merged(Partials(Found(ms), lib, slots, Share(max, |ms|)))
    ensures Found(ms) != [] ==> result.totalTokens == ComparisonTotal(Found(ms), lib, slots, Share(max, |ms|))
    ensures Found(ms) != [] && (forall m :: m in Found(ms) ==> FixedTokens(m, lib, slots) <= Share(max, |ms|)) ==>
      result.totalTokens <= max
    ensures Found(ms) != [] && max < 38 * |Found(ms)| ==> result.totalTokens > max
  {
    hide *;
    NothingFound();
    if ms == [] {
      result := AssembleContext(single, lib, slots, max);
      return;
    }
    var share := Share(max, |ms|);
    var partials: Results := [];
    NoPartials(lib, slots, share);
    var i := 0;
    while i < |ms|
      invariant 0 <= i <= |ms| && partials == Partials(Found(ms[..i]), lib, slots, share)
    {
      assert ms[..i + 1] == ms[..i] + [ms[i]];
      FoundNext(ms[..i], ms[i]);
      if ms[i].Some? {
        assert ms[i] in ms;
        var partial := AssembleContext(ms[i].value, lib, slots, share);
        PartialsNext(Found(ms[..i]), ms[i].value, lib, slots, share);
        partials := partials + [partial];
      } else {
        assert Found(ms[..i]) + [] == Found(ms[..i]);
      }
      i := i + 1;
    }
    assert ms[..i] == ms;
    SameCount(Found(ms), lib, slots, share);
    if partials == [] {
      result := AssembleContext(single, lib, slots, max);
      return;
    }
    var merged := MergeRetrievalResults(partials);
    result := merged.value;
    MergedTotal(partials);
    TotalIsSum(Found(ms), lib, slots, share);
    FoundAreFew(ms);
    ComparisonWithinBudget(Found(ms), |ms|, lib, slots, max);
  }

  lemma NothingFound()
    ensures Found([]) == []
  {
  }

  lemma NoPartials(lib: Library, slots: SlotBudgets, share: int)
    ensures Partials([], lib, slots, share) == []
  {
  }

  lemma PartialsNext(ms: seq<Material>, m: Material, lib: Library, slots: SlotBudgets, share: int)
    ensures Partials(ms + [m], lib, slots, share) == Partials(ms, lib, slots, share) + [Assembled(m, lib, slots, share)]
  {
    hide Assembled;
    ImageAppend(AssembledWith(lib, slots, share), ms, m);
  }

  lemma SameCount(ms: seq<Material>, lib: Library, slots: SlotBudgets, share: int)
    ensures |Partials(ms, lib, slots, share)| == |ms|
  {
  }

  lemma TotalIsSum(ms: seq<Material>, lib: Library, slots: SlotBudgets, share: int)
    ensures ComparisonTotal(ms, lib, slots, share) == Sum(TotalOf, Partials(ms, lib, slots, share))
  {
  }

  // ---- Exactly when the budget holds, over all chunks ----

  /** The same seeds, traversal and pages, entity by entity, with any links and chunks. */
  ghost predicate SameSlotsAll(ms: seq<Material>, others: seq<Material>) {
    && |others| == |ms|
    && forall i :: 0 <= i < |ms| ==> SameSlots(ms[i], others[i]) && FetchedChunks(others[i].chunks)
  }

  lemma {:induction false} SameSums(ms: seq<Material>, others: seq<Material>, lib: Library, slots: SlotBudgets,
                                    share: int)
    requires SameSlotsAll(ms, others)
    ensures SumFixed(others, lib, slots) == SumFixed(ms, lib, slots)
    ensures SumCeilings(others, lib, slots, share) == SumCeilings(ms, lib, slots, share)
  {
    hide FixedTokens, SameSlots, Ceiling;
    if ms == [] {
    } else {
      var n := |ms| - 1;
      SameSums(ms[..n], others[..n], lib, slots, share);
      SameFixed(ms[n], others[n], lib, slots);
      SameCeiling(ms[n], others[n], lib, slots, share);
    }
  }

  lemma SameSlotsNext(ms: seq<Material>, others: seq<Material>, m: Material, other: Material)
    requires SameSlotsAll(ms, others) && SameSlots(m, other) && FetchedChunks(other.chunks)
    ensures SameSlotsAll(ms + [m], others + [other])
  {
    hide SameSlots, FetchedChunks;
  }

  /** Chunks that take every entity to its ceiling. */
  lemma {:induction false} AllFilled(ms: seq<Material>, lib: Library, slots: SlotBudgets, share: int, u: Vector,
                                     v: Vector)
    returns (full: seq<Material>)
    requires Shares(lib) && Unlike(lib.scoring, u, v) && forall m :: m in ms ==> m.seeds != []
    ensures SameSlotsAll(ms, full)
    ensures ComparisonTotal(full, lib, slots, share) == SumCeilings(ms, lib, slots, share)
  {
    hide FixedTokens, AssembledTotal, Shares, Unlike, ComparisonTotal, SameSlots, Ceiling;
    if ms == [] {
      full := [];
      NothingCosts(lib, slots, share);
    } else {
      var n := |ms| - 1;
      var front, m := ms[..n], ms[n];
      assert ms == front + [m] && m in ms;
      var filled := AllFilled(front, lib, slots, share, u, v);
      var last := FilledIsFull(m, lib, slots, share, u, v);
      full := filled + [last];
      SameSlotsNext(front, filled, m, last);
      ComparisonTotalNext(filled, last, lib, slots, share);
      ComparisonTotalNext(front, m, lib, slots, share);
    }
  }

  lemma {:induction false} AllWithoutChunks(ms: seq<Material>, lib: Library, slots: SlotBudgets, share: int)
    returns (bare: seq<Material>)
    ensures SameSlotsAll(ms, bare)
    ensures ComparisonTotal(bare, lib, slots, share) == SumFixed(ms, lib, slots)
  {
    hide FixedTokens, AssembledTotal, ComparisonTotal, SameSlots, WithoutChunks;
    if ms == [] {
      bare := [];
      NothingCosts(lib, slots, share);
    } else {
      var n := |ms| - 1;
      var front, m := ms[..n], ms[n];
      assert ms == front + [m];
      var others := AllWithoutChunks(front, lib, slots, share);
      WithoutChunksOnlyFixed(m, lib, slots, share);
      bare := others + [WithoutChunks(m)];
      SameSlotsNext(front, others, m, WithoutChunks(m));
      ComparisonTotalNext(others, WithoutChunks(m), lib, slots, share);
      ComparisonTotalNext(front, m, lib, slots, share);
    }
  }

  /** The merged result fits the budget whatever chunks the entities have exactly when their ceilings together
      fit it: fixed slots and elastic pool, or the seeds' part of the pool where the traversal found nothing. */
  lemma FitsForAllChunks(ms: seq<Material>, lib: Library, slots: SlotBudgets, share: int, max: int, u: Vector,
                         v: Vector)
    requires Shares(lib) && Unlike(lib.scoring, u, v) && forall m :: m in ms ==> m.seeds != []
    ensures (forall others :: SameSlotsAll(ms, others) ==> ComparisonTotal(others, lib, slots, share) <= max)
       <==> SumCeilings(ms, lib, slots, share) <= max
  {
    hide *;
    var full := AllFilled(ms, lib, slots, share, u, v);
    forall others | SameSlotsAll(ms, others)
      ensures ComparisonTotal(others, lib, slots, share) <= SumCeilings(ms, lib, slots, share)
    {
      SameSums(ms, others, lib, slots, share);
      TotalBetween(others, lib, slots, share);
    }
  }

  /** It fits the budget with some chunks exactly when the fixed slots together fit it. */
  lemma FitsForSomeChunks(ms: seq<Material>, lib: Library, slots: SlotBudgets, share: int, max: int)
    requires Shares(lib)
    ensures (exists others :: SameSlotsAll(ms, others) && ComparisonTotal(others, lib, slots, share) <= max)
       <==> SumFixed(ms, lib, slots) <= max
  {
    hide *;
    var bare := AllWithoutChunks(ms, lib, slots, share);
    forall others | SameSlotsAll(ms, others)
      ensures SumFixed(ms, lib, slots) <= ComparisonTotal(others, lib, slots, share)
    {
      SameSums(ms, others, lib, slots, share);
      TotalBetween(others, lib, slots, share);
    }
  }

  // ---- An overspending call ----

  /** The anchor line of an entity without relations. */
  function IsolatedLine(name: string, kind: string, description: string): string {
    "- " + name + " (" + kind + "): " + description + " | degree=0 centrality=low | No relations"
  }

  /** An entity without relations, page or chunks. */
  function Isolated(id: Id, line: string): Material {
    Material("", 0, [Seed(id, line)], [], [], map[id := 0], map[], [], map[])
  }

  /** It costs its line, or an empty slot when the line alone is over budget, and 37 tokens for the
      empty subgraph and the instruction. */
  lemma IsolatedIsFixed(id: Id, line: string, lib: Library)
    ensures FixedTokens(Isolated(id, line), lib, SHIPPED)
         == 37 + if EstimateTokens(line) <= SHIPPED.anchor then EstimateTokens(line) else 1
    ensures !HasHops(Isolated(id, line))
  {
    var m := Isolated(id, line);
    OneItemSlot(AnchorLine, Seed(id, line), SHIPPED.anchor);
    NoItemSlot(EdgeLine, SHIPPED.subgraph);
    hide SlotTokens, EstimateTokens;
    assert PageOf(m) == None;
  }

  lemma NoItemSlot<A>(text: A -> string, budget: int)
    ensures SlotTokens(text, [], budget) == 1
  {
    assert Image(text, []) == [];
  }

  lemma OneItemSlot<A>(text: A -> string, item: A, budget: int)
    ensures SlotTokens(text, [item], budget)
         == if EstimateTokens(text(item)) <= budget then EstimateTokens(text(item)) else 1
  {
    hide EstimateTokens;
    assert [item][..0] == [];
    assert Cost(text, [item]) == EstimateTokens(text(item));
    assert Image(text, []) == [] && Image(text, [item]) == [text(item)];
    assert EstimateTokens("") == 1;
  }

  /** Two isolated entities whose share is no more than either one's fixed slots account for exactly those slots. */
  lemma TwoIsolatedTotal(a: Material, b: Material, lib: Library, slots: SlotBudgets, share: int)
    requires Shares(lib) && share <= FixedTokens(a, lib, slots) && share <= FixedTokens(b, lib, slots)
    ensures ComparisonTotal([a, b], lib, slots, share) == FixedTokens(a, lib, slots) + FixedTokens(b, lib, slots)
  {
    hide *;
    AssembledWithin(a, lib, slots, share);
    AssembledWithin(b, lib, slots, share);
    NothingCosts(lib, slots, share);
    ComparisonTotalNext([], a, lib, slots, share);
    ComparisonTotalNext([a], b, lib, slots, share);
    assert [] + [a] == [a] && [a] + [b] == [a, b];
  }

  /** Comparing two people nothing is known about, with a budget of 108: the result accounts for 109. */
  lemma TwoIsolatedEntitiesOverspend(lib: Library)
    requires Shares(lib)
    ensures var ada := Isolated(1, IsolatedLine("Ada", "person", "a mathematician"));
      var max := Isolated(2, IsolatedLine("Max", "person", "a physicist"));
      ComparisonTotal([ada, max], lib, SHIPPED, Share(108, 2)) == 109
  {
    var ada, max := IsolatedLine("Ada", "person", "a mathematician"), IsolatedLine("Max", "person", "a physicist");
    assert |ada| == 72 && |max| == 68 && Share(108, 2) == 54;
    hide *;
    LineTokens(ada, 18);
    LineTokens(max, 17);
    IsolatedIsFixed(1, ada, lib);
    IsolatedIsFixed(2, max, lib);
    TwoIsolatedTotal(Isolated(1, ada), Isolated(2, max), lib, SHIPPED, Share(108, 2));
  }

  lemma LineTokens(line: string, tokens: nat)
    requires |line| == 4 * tokens && 0 < tokens <= SHIPPED.anchor
    ensures EstimateTokens(line) == tokens <= SHIPPED.anchor
  {
  }
}
