/** What the traversal keeps of the hop map: caps per hop and in total, and
    the relations among what is kept. Row and load orders are inputs. */
module TraversalLimits {
  import opened Sequences
  import opened StableSorting
  import opened GraphTables
  import opened Traversal

  datatype Limits = Limits(maxHops: int, perHop: nat, total: nat)

  datatype Traversed = Traversed(kept: seq<Id>, relations: seq<Relation>, hops: map<Id, nat>)

  function LeavesFrom(e: Id): Relation -> bool { (r: Relation) => r.source == e }
  function ArrivesAt(e: Id): Relation -> bool { (r: Relation) => r.target == e }
  function Source(r: Relation): Id { r.source }
  function Target(r: Relation): Id { r.target }

  function Degree(g: Graph, e: Id): nat {
    |Keep(LeavesFrom(e), g.relations)| + |Keep(ArrivesAt(e), g.relations)|
  }

  function AtHop(hops: map<Id, nat>, h: nat): Id -> bool { (e: Id) => e in hops && hops[e] == h }

  /** Nearer first, then better connected. */
  function ByHopAndDegree(g: Graph, hops: map<Id, nat>): Id -> Rank {
    (e: Id) =>
      var hop: int := if e in hops then hops[e] else 0;
      var degree: int := Degree(g, e);
      (hop, -degree)
  }

  function Take<A>(s: seq<A>, n: nat): (r: seq<A>)
    ensures |r| == if |s| < n then |s| else n
  {
    if |s| <= n then s else s[..n]
  }

  ghost predicate EndsExist(g: Graph) {
    && Distinct(Image(RelationId, g.relations))
    && forall r :: r in g.relations ==> r.source in g.entities && r.target in g.entities
  }

  // ---- One pass over the hops ----

  /** out holds, for every hop, the shaped group of that hop in ids. */
  ghost predicate ShapedPerHop(hops: map<Id, nat>, shape: seq<Id> -> seq<Id>, ids: seq<Id>, out: seq<Id>) {
    forall h: nat :: Keep(AtHop(hops, h), out) == shape(Keep(AtHop(hops, h), ids))
  }

  /** What a pass may do to the entities of one hop: drop some, and order the rest by rank. */
  ghost predicate ShapesAt(rank: Id -> Rank, shape: seq<Id> -> seq<Id>, s: seq<Id>) {
    && |shape(s)| <= |s| && (forall x :: x in shape(s) ==> x in s)
    && (Distinct(s) ==> Distinct(shape(s)))
    && ((forall x, y :: x in s && y in s ==> rank(x).0 == rank(y).0) ==> Sorted(rank, shape(s)))
  }

  ghost predicate Shapes(rank: Id -> Rank, shape: seq<Id> -> seq<Id>) {
    forall s: seq<Id> :: ShapesAt(rank, shape, s)
  }

  lemma SmallestExists(keys: set<nat>) returns (least: nat)
    requires keys != {}
    ensures least in keys && forall k :: k in keys ==> least <= k
  {
    least :| least in keys;
    while exists k :: k in keys && k < least
      invariant least in keys
      decreases least
    {
      var k :| k in keys && k < least;
      least := k;
    }
  }

  /** The next key of an ascending walk over a set. */
  method SmallestOf(keys: set<nat>) returns (least: nat)
    requires keys != {}
    ensures least in keys && forall k :: k in keys ==> least <= k
  {
    ghost var l := SmallestExists(keys);
    least :| least in keys && forall k | k in keys :: least <= k;
  }

  /** The shaped group of hop h, when it follows the groups of nearer hops. */
  ghost predicate Follows(hops: map<Id, nat>, rank: Id -> Rank, out: seq<Id>, group: seq<Id>, h: nat) {
    && (forall e :: e in out ==> e in hops && hops[e] < h && rank(e).0 == hops[e])
    && (forall e :: e in group ==> e in hops && hops[e] == h && rank(e).0 == hops[e])
    && Distinct(out) && Distinct(group) && Sorted(rank, out) && Sorted(rank, group)
  }

  lemma GroupFollows(ids: seq<Id>, hops: map<Id, nat>, rank: Id -> Rank, out: seq<Id>, h: nat,
                     shape: seq<Id> -> seq<Id>)
    requires Distinct(ids) && forall e :: e in ids ==> e in hops && rank(e).0 == hops[e]
    requires Shapes(rank, shape) && Distinct(out) && Sorted(rank, out)
    requires forall e :: e in out ==> e in ids && hops[e] < h
    ensures Follows(hops, rank, out, shape(Keep(AtHop(hops, h), ids)), h)
    ensures forall e :: e in shape(Keep(AtHop(hops, h), ids)) ==> e in ids && hops[e] == h
  {
    KeepIsDistinct(AtHop(hops, h), ids);
    assert ShapesAt(rank, shape, Keep(AtHop(hops, h), ids));
  }

  lemma FollowingSorted(hops: map<Id, nat>, rank: Id -> Rank, out: seq<Id>, group: seq<Id>, h: nat)
    requires Follows(hops, rank, out, group, h)
    ensures Distinct(out + group) && Sorted(rank, out + group)
  {
    forall i | 0 <= i < |group| ensures hops[group[i]] == h && rank(group[i]).0 == h { assert group[i] in group; }
    forall i | 0 <= i < |out| ensures hops[out[i]] < h && rank(out[i]).0 < h { assert out[i] in out; }
  }

  lemma FollowingKept(hops: map<Id, nat>, rank: Id -> Rank, out: seq<Id>, group: seq<Id>, h: nat, k: nat)
    requires Follows(hops, rank, out, group, h)
    ensures Keep(AtHop(hops, k), out + group) == if k == h then group else Keep(AtHop(hops, k), out)
  {
    KeepConcat(AtHop(hops, k), out, group);
    if k == h {
      KeepNone(AtHop(hops, k), out);
      KeepAll(AtHop(hops, k), group);
    } else {
      KeepNone(AtHop(hops, k), group);
    }
  }

  ghost predicate Bucketed(ids: seq<Id>, hops: map<Id, nat>, buckets: map<nat, seq<Id>>) {
    && (forall h :: h in buckets ==> buckets[h] == Keep(AtHop(hops, h), ids))
    && (forall h: nat :: h !in buckets ==> Keep(AtHop(hops, h), ids) == [])
  }

  lemma BucketNext(ids: seq<Id>, hops: map<Id, nat>, i: nat)
    requires i < |ids| && ids[i] in hops
    ensures forall k: nat ::
      Keep(AtHop(hops, k), ids[..i + 1]) == Keep(AtHop(hops, k), ids[..i]) + if k == hops[ids[i]] then [ids[i]] else []
  {
    assert ids[..i + 1] == ids[..i] + [ids[i]];
    forall k: nat
      ensures Keep(AtHop(hops, k), ids[..i + 1])
          == Keep(AtHop(hops, k), ids[..i]) + if k == hops[ids[i]] then [ids[i]] else []
    {
      KeepAppend(AtHop(hops, k), ids[..i], ids[i]);
    }
  }

  method BucketByHop(ids: seq<Id>, hops: map<Id, nat>) returns (buckets: map<nat, seq<Id>>)
    requires forall e :: e in ids ==> e in hops
    ensures Bucketed(ids, hops, buckets)
  {
    buckets := map[];
    EmptyHops(hops);
    hide Keep, AtHop;
    var i := 0;
    while i < |ids|
      invariant 0 <= i <= |ids|
      invariant Bucketed(ids[..i], hops, buckets)
    {
      var h := hops[ids[i]];
      BucketNext(ids, hops, i);
      buckets := buckets[h := (if h in buckets then buckets[h] else []) + [ids[i]]];
      i := i + 1;
    }
    assert ids[..i] == ids;
  }

  lemma EmptyHops(hops: map<Id, nat>)
    ensures forall h: nat :: Keep(AtHop(hops, h), []) == []
  {
  }

  /** Emit the shaped buckets in ascending hop order. */
  method ForEachHop(ids: seq<Id>, hops: map<Id, nat>, ghost rank: Id -> Rank, shape: seq<Id> -> seq<Id>)
    returns (out: seq<Id>)
    requires Distinct(ids) && forall e :: e in ids ==> e in hops && rank(e).0 == hops[e]
    requires Shapes(rank, shape)
    ensures Distinct(out) && forall e :: e in out ==> e in ids
    ensures Sorted(rank, out)
    ensures ShapedPerHop(hops, shape, ids, out)
  {
    hide *;
    var buckets := BucketByHop(ids, hops);
    out := [];
    var rest := buckets.Keys;
    EmittedNone(ids, hops, rank, shape, rest);
    while rest != {}
      invariant rest <= buckets.Keys
      invariant Emitted(ids, hops, rank, shape, buckets.Keys - rest, rest, out)
      decreases rest
    {
      var h := SmallestOf(rest);
      EmitOne(ids, hops, rank, shape, buckets.Keys - rest, rest, out, h, buckets);
      assert buckets.Keys - rest + {h} == buckets.Keys - (rest - {h});
      out := out + shape(buckets[h]);
      rest := rest - {h};
    }
    assert buckets.Keys - rest == buckets.Keys;
    EmittedAll(ids, hops, rank, shape, buckets, out);
  }

  lemma EmittedNone(ids: seq<Id>, hops: map<Id, nat>, rank: Id -> Rank, shape: seq<Id> -> seq<Id>, keys: set<nat>)
    requires forall e :: e in ids ==> e in hops
    ensures Emitted(ids, hops, rank, shape, keys - keys, keys, [])
  {
    assert forall h: nat :: Keep(AtHop(hops, h), []) == [];
  }

  lemma EmittedAll(ids: seq<Id>, hops: map<Id, nat>, rank: Id -> Rank, shape: seq<Id> -> seq<Id>,
                   buckets: map<nat, seq<Id>>, out: seq<Id>)
    requires Shapes(rank, shape) && Bucketed(ids, hops, buckets)
    requires forall e :: e in ids ==> e in hops
    requires Emitted(ids, hops, rank, shape, buckets.Keys, {}, out)
    ensures Distinct(out) && (forall e :: e in out ==> e in ids) && Sorted(rank, out)
    ensures ShapedPerHop(hops, shape, ids, out)
  {
    assert ShapesAt(rank, shape, []);
    hide Keep;
    hide AtHop;
  }

  ghost predicate Emitted(ids: seq<Id>, hops: map<Id, nat>, rank: Id -> Rank, shape: seq<Id> -> seq<Id>,
                          done: set<nat>, rest: set<nat>, out: seq<Id>)
    requires forall e :: e in ids ==> e in hops
  {
    && Distinct(out) && Sorted(rank, out)
    && (forall e :: e in out ==> e in ids && forall k :: k in rest ==> hops[e] < k)
    && (forall h: nat :: Keep(AtHop(hops, h), out) == if h in done then shape(Keep(AtHop(hops, h), ids)) else [])
  }

  lemma EmitOne(ids: seq<Id>, hops: map<Id, nat>, rank: Id -> Rank, shape: seq<Id> -> seq<Id>,
                done: set<nat>, rest: set<nat>, out: seq<Id>, h: nat, buckets: map<nat, seq<Id>>)
    requires h in buckets && Bucketed(ids, hops, buckets)
    requires Distinct(ids) && forall e :: e in ids ==> e in hops && rank(e).0 == hops[e]
    requires Shapes(rank, shape) && Emitted(ids, hops, rank, shape, done, rest, out)
    requires h in rest && h !in done && forall k :: k in rest ==> h <= k
    ensures Emitted(ids, hops, rank, shape, done + {h}, rest - {h}, out + shape(buckets[h]))
  {
    hide Shapes;
    hide ShapesAt;
    hide Follows;
    hide Sorted;
    hide Distinct;
    hide Keep;
    hide AtHop;
    var group := shape(Keep(AtHop(hops, h), ids));
    assert forall e :: e in out ==> e in ids && hops[e] < h;
    GroupFollows(ids, hops, rank, out, h, shape);
    FollowingSorted(hops, rank, out, group, h);
    forall k: nat ensures Keep(AtHop(hops, k), out + group) == if k == h then group else Keep(AtHop(hops, k), out) {
      FollowingKept(hops, rank, out, group, h, k);
    }
  }

  // ---- The traversal ----

  function FirstOf(n: nat): seq<Id> -> seq<Id> { (s: seq<Id>) => Take(s, n) }

  function RankedFirstOf(rank: Id -> Rank, n: nat): seq<Id> -> seq<Id> {
    (s: seq<Id>) => Take(StableSort(rank, s), n)
  }

  function HopOnly(hops: map<Id, nat>): Id -> Rank {
    (e: Id) => var hop: int := if e in hops then hops[e] else 0; (hop, 0)
  }

  lemma CutShapes(hops: map<Id, nat>, n: nat)
    ensures Shapes(HopOnly(hops), FirstOf(n))
  {
  }

  lemma RankedCutShapes(rank: Id -> Rank, n: nat)
    ensures Shapes(rank, RankedFirstOf(rank, n))
  {
    hide ShapesAt;
    forall s: seq<Id> ensures ShapesAt(rank, RankedFirstOf(rank, n), s) {
      RankedCut(rank, n, s);
    }
  }

  lemma RankedCut(rank: Id -> Rank, n: nat, s: seq<Id>)
    ensures ShapesAt(rank, RankedFirstOf(rank, n), s)
  {
    hide *;
    RankedFirst(rank, n, s);
    var sorted := StableSort(rank, s);
    StableSortSorts(rank, s);
    PermutedDistinct(s, sorted);
    TakeKeeps(rank, sorted, n);
    SortedCutShapes(rank, RankedFirstOf(rank, n), s, Take(sorted, n));
  }

  lemma RankedFirst(rank: Id -> Rank, n: nat, s: seq<Id>)
    ensures RankedFirstOf(rank, n)(s) == Take(StableSort(rank, s), n)
  {
  }

  lemma SortedCutShapes(rank: Id -> Rank, shape: seq<Id> -> seq<Id>, s: seq<Id>, cut: seq<Id>)
    requires shape(s) == cut && |cut| <= |s| && forall x :: x in cut ==> x in s
    requires (Distinct(s) ==> Distinct(cut)) && Sorted(rank, cut)
    ensures ShapesAt(rank, shape, s)
  {
  }

  lemma TakeKeeps(rank: Id -> Rank, s: seq<Id>, n: nat)
    ensures forall x :: x in Take(s, n) ==> x in s
    ensures Distinct(s) ==> Distinct(Take(s, n))
    ensures Sorted(rank, s) ==> Sorted(rank, Take(s, n))
  {
  }

  lemma PermutedDistinct<A(!new)>(s: seq<A>, t: seq<A>)
    requires Permutation(s, t)
    ensures Distinct(s) ==> Distinct(t)
  {
    DistinctCounts(s);
    DistinctCounts(t);
  }

  // ---- What is kept ----

  function Elsewhere(seeds: seq<Id>): Id -> bool { (e: Id) => e !in seeds }

  function Smaller(a: nat, b: nat): nat { if a < b then a else b }

  /** How many entities of a hop the per-hop cap lets through. */
  ghost function Quota(limits: Limits, hops: map<Id, nat>, candidates: seq<Id>, h: nat): nat {
    Smaller(limits.perHop, |Keep(AtHop(hops, h), candidates)|)
  }

  /** e is among the entities of its hop that come first in row order, as many as the cap lets through. */
  ghost predicate EarlyInHop(limits: Limits, hops: map<Id, nat>, candidates: seq<Id>, e: Id) {
    e in hops && e in Take(Keep(AtHop(hops, hops[e]), candidates), limits.perHop)
  }

  /** What the total cap drops does not rank before anything it keeps. */
  ghost predicate DroppedLast(g: Graph, limits: Limits, hops: map<Id, nat>, candidates: seq<Id>, kept: seq<Id>) {
    && (|kept| < limits.total ==> forall e :: EarlyInHop(limits, hops, candidates, e) ==> e in kept)
    && forall e, x :: EarlyInHop(limits, hops, candidates, e) && e !in kept && x in kept ==>
         !Less(ByHopAndDegree(g, hops)(e), ByHopAndDegree(g, hops)(x))
  }

  /** kept takes every hop up to its cap, nearest hops first, until the total is reached. */
  ghost predicate KeptWell(g: Graph, limits: Limits, hops: map<Id, nat>, candidates: seq<Id>, kept: seq<Id>) {
    && Distinct(kept)
    && (forall e :: e in kept ==> e in candidates)
    && Sorted(ByHopAndDegree(g, hops), kept)
    && (forall e :: e in kept ==> EarlyInHop(limits, hops, candidates, e))
    && DroppedLast(g, limits, hops, candidates, kept)
    && |kept| <= limits.total
    && (forall h: nat :: |Keep(AtHop(hops, h), kept)| <= Quota(limits, hops, candidates, h))
    && (|kept| < limits.total ==> forall h: nat :: |Keep(AtHop(hops, h), kept)| == Quota(limits, hops, candidates, h))
    && (forall e, h: nat :: e in kept && e in hops && h < hops[e] ==>
          |Keep(AtHop(hops, h), kept)| == Quota(limits, hops, candidates, h))
  }

  /** The caps: cut each hop, load, rank each hop, cut again, re-rank and cut the total. */
  method KeepWithinLimits(g: Graph, limits: Limits, hops: map<Id, nat>, candidates: seq<Id>, load: seq<Id> -> seq<Id>)
    returns (kept: seq<Id>)
    requires Distinct(candidates) && forall e :: e in candidates ==> e in hops
    requires forall s: seq<Id> :: Permutation(s, load(s))
    ensures KeptWell(g, limits, hops, candidates, kept)
  {
    var rank := ByHopAndDegree(g, hops);
    CutShapes(hops, limits.perHop);
    var limited := ForEachHop(candidates, hops, HopOnly(hops), FirstOf(limits.perHop));
    var loaded := load(limited);
    PermutedDistinct(limited, loaded);
    PermutationMembers(limited, loaded);
    RankedCutShapes(rank, limits.perHop);
    hide *;
    kept := ForEachHop(loaded, hops, rank, RankedFirstOf(rank, limits.perHop));
    QuotasFilled(limits, hops, rank, candidates, limited, loaded, kept);
    LoadedAreEarly(limits, hops, rank, candidates, limited, loaded, kept);
    TruncationKeepsNearest(g, limits, hops, candidates, kept);
    TakeIsCut(kept, limits.total);
    if |kept| > limits.total {
      SortOfSorted(rank, kept);
      kept := StableSort(rank, kept)[..limits.total];
    }
  }

  lemma TakeIsCut<A>(s: seq<A>, n: nat)
    ensures Take(s, n) == if |s| > n then s[..n] else s
  {
  }

  /** The first cut already met the cap, so cutting the ranked hops again drops nothing. */
  lemma QuotasFilled(limits: Limits, hops: map<Id, nat>, rank: Id -> Rank, candidates: seq<Id>,
                     limited: seq<Id>, loaded: seq<Id>, ranked: seq<Id>)
    requires ShapedPerHop(hops, FirstOf(limits.perHop), candidates, limited)
    requires Permutation(limited, loaded)
    requires ShapedPerHop(hops, RankedFirstOf(rank, limits.perHop), loaded, ranked)
    ensures forall h: nat :: Keep(AtHop(hops, h), ranked) == StableSort(rank, Keep(AtHop(hops, h), loaded))
    ensures forall h: nat :: |Keep(AtHop(hops, h), ranked)| == Quota(limits, hops, candidates, h)
  {
    forall h: nat
      ensures Keep(AtHop(hops, h), ranked) == StableSort(rank, Keep(AtHop(hops, h), loaded))
      ensures |Keep(AtHop(hops, h), ranked)| == Quota(limits, hops, candidates, h)
    {
      QuotaFilled(limits, hops, rank, candidates, limited, loaded, ranked, h);
    }
  }

  lemma QuotaFilled(limits: Limits, hops: map<Id, nat>, rank: Id -> Rank, candidates: seq<Id>,
                    limited: seq<Id>, loaded: seq<Id>, ranked: seq<Id>, h: nat)
    requires Keep(AtHop(hops, h), limited) == Take(Keep(AtHop(hops, h), candidates), limits.perHop)
    requires Permutation(limited, loaded)
    requires Keep(AtHop(hops, h), ranked) == Take(StableSort(rank, Keep(AtHop(hops, h), loaded)), limits.perHop)
    ensures Keep(AtHop(hops, h), ranked) == StableSort(rank, Keep(AtHop(hops, h), loaded))
    ensures |Keep(AtHop(hops, h), ranked)| == Quota(limits, hops, candidates, h)
  {
    PermutationOfKeeps(AtHop(hops, h), limited, loaded);
  }

  lemma TruncationKeepsNearest(g: Graph, limits: Limits, hops: map<Id, nat>, candidates: seq<Id>,
                               ranked: seq<Id>)
    requires Distinct(ranked) && Sorted(ByHopAndDegree(g, hops), ranked)
    requires forall e :: e in ranked ==> e in candidates && e in hops
    requires forall h: nat :: |Keep(AtHop(hops, h), ranked)| == Quota(limits, hops, candidates, h)
    requires forall e :: e in ranked <==> EarlyInHop(limits, hops, candidates, e)
    ensures KeptWell(g, limits, hops, candidates, Take(ranked, limits.total))
  {
    hide Keep, AtHop, Sorted, Distinct, Quota, ByHopAndDegree, EarlyInHop, DroppedLast;
    var kept := Take(ranked, limits.total);
    var dropped := ranked[|kept|..];
    assert ranked == kept + dropped;
    TakeKeeps(ByHopAndDegree(g, hops), ranked, limits.total);
    forall h: nat
      ensures |Keep(AtHop(hops, h), ranked)| == |Keep(AtHop(hops, h), kept)| + |Keep(AtHop(hops, h), dropped)|
    {
      KeepConcat(AtHop(hops, h), kept, dropped);
    }
    forall e, h: nat | e in kept && h < hops[e] ensures Keep(AtHop(hops, h), dropped) == [] {
      NearerHopsAreKept(g, hops, kept, dropped, e, h);
    }
    assert |kept| < limits.total ==> dropped == [];
    RankedBehind(g, limits, hops, candidates, kept, dropped);
    NothingDropped(hops);
    hide Take;
  }

  lemma NothingDropped(hops: map<Id, nat>)
    ensures forall h: nat :: Keep(AtHop(hops, h), []) == []
  {
  }

  lemma RankedBehind(g: Graph, limits: Limits, hops: map<Id, nat>, candidates: seq<Id>, kept: seq<Id>, dropped: seq<Id>)
    requires Sorted(ByHopAndDegree(g, hops), kept + dropped)
    requires forall e :: e in kept + dropped <==> EarlyInHop(limits, hops, candidates, e)
    requires |kept| < limits.total ==> dropped == []
    ensures DroppedLast(g, limits, hops, candidates, kept)
  {
    hide EarlyInHop, ByHopAndDegree, Less;
    var ranked := kept + dropped;
    forall e, x | EarlyInHop(limits, hops, candidates, e) && e !in kept && x in kept
      ensures !Less(ByHopAndDegree(g, hops)(e), ByHopAndDegree(g, hops)(x))
    {
      assert e in ranked && e in dropped;
      var j :| 0 <= j < |dropped| && dropped[j] == e;
      var i :| 0 <= i < |kept| && kept[i] == x;
      assert ranked[|kept| + j] == e && ranked[i] == x;
    }
  }

  /** Loading and ranking neither drop nor add an entity. */
  lemma LoadedAreEarly(limits: Limits, hops: map<Id, nat>, rank: Id -> Rank, candidates: seq<Id>,
                       limited: seq<Id>, loaded: seq<Id>, ranked: seq<Id>)
    requires ShapedPerHop(hops, FirstOf(limits.perHop), candidates, limited)
    requires forall e :: e in limited <==> e in loaded
    requires forall e :: e in ranked ==> e in loaded
    requires forall e :: e in limited ==> e in hops
    requires forall h: nat :: Keep(AtHop(hops, h), ranked) == StableSort(rank, Keep(AtHop(hops, h), loaded))
    ensures forall e :: e in ranked <==> EarlyInHop(limits, hops, candidates, e)
  {
    forall e ensures e in ranked <==> EarlyInHop(limits, hops, candidates, e) {
      if e in hops {
        var h := hops[e];
        assert Keep(AtHop(hops, h), limited) == Take(Keep(AtHop(hops, h), candidates), limits.perHop);
        StableSortSorts(rank, Keep(AtHop(hops, h), loaded));
        PermutationMembers(Keep(AtHop(hops, h), loaded), Keep(AtHop(hops, h), ranked));
        assert AtHop(hops, h)(e);
        assert e in Keep(AtHop(hops, h), ranked) <==> e in Keep(AtHop(hops, h), loaded);
        assert e in Keep(AtHop(hops, h), loaded) <==> e in Keep(AtHop(hops, h), limited);
      }
    }
  }

  /** Behind a kept entity, nothing of a nearer hop is left. */
  lemma NearerHopsAreKept(g: Graph, hops: map<Id, nat>, kept: seq<Id>, dropped: seq<Id>, e: Id, h: nat)
    requires Sorted(ByHopAndDegree(g, hops), kept + dropped)
    requires forall x :: x in kept + dropped ==> x in hops
    requires e in kept && h < hops[e]
    ensures Keep(AtHop(hops, h), dropped) == []
  {
    var ranked := kept + dropped;
    var i :| 0 <= i < |kept| && kept[i] == e;
    forall x | x in dropped ensures !AtHop(hops, h)(x) {
      var j :| 0 <= j < |dropped| && dropped[j] == x;
      assert ranked[|kept| + j] == x && ranked[i] == e;
    }
    KeepNone(AtHop(hops, h), dropped);
  }

  // ---- Relations among what is kept ----

  /** One end is a kept entity that is no seed, the other is kept or a seed. */
  predicate Connects(kept: seq<Id>, inScope: set<Id>, r: Relation) {
    (r.source in kept && r.target in inScope) || (r.target in kept && r.source in inScope)
  }

  function HasOther(otherEnd: Relation -> Id, inScope: set<Id>): Relation -> bool {
    (r: Relation) => otherEnd(r) in inScope
  }

  /** The relations the loops come across, kept entity by kept entity: those it starts, then those it ends, with the
      other end in scope. */
  function Offered(g: Graph, kept: seq<Id>, inScope: set<Id>): seq<Relation> {
    if kept == [] then []
    else
      var e := kept[|kept| - 1];
      Offered(g, kept[..|kept| - 1], inScope)
        + Keep(HasOther(Target, inScope), Keep(LeavesFrom(e), g.relations))
        + Keep(HasOther(Source, inScope), Keep(ArrivesAt(e), g.relations))
  }

  /** One of the two inner loops: relations of one entity whose other end is in scope, each once. */
  method CollectFrom(rels: seq<Relation>, otherEnd: Relation -> Id, inScope: set<Id>, found: seq<Relation>,
                     ghost offered: seq<Relation>)
    returns (out: seq<Relation>)
    requires found == FirstPerKey(RelationId, offered)
    ensures out == FirstPerKey(RelationId, offered + Keep(HasOther(otherEnd, inScope), rels))
  {
    hide *;
    out := found;
    ghost var seen := offered;
    NothingFrom(otherEnd, inScope, offered);
    var i := 0;
    while i < |rels|
      invariant 0 <= i <= |rels|
      invariant seen == offered + Keep(HasOther(otherEnd, inScope), rels[..i]) && out == FirstPerKey(RelationId, seen)
    {
      var r := rels[i];
      assert rels[..i + 1] == rels[..i] + [r];
      OfferedNext(otherEnd, inScope, offered, rels[..i], r);
      FirstPerKeyKeys(RelationId, seen);
      FirstsNext(RelationId, seen, r);
      IdOf(r);
      if otherEnd(r) in inScope {
        if r.id !in Image(RelationId, out) {
          out := out + [r];
        }
        seen := seen + [r];
      }
      i := i + 1;
    }
    assert rels[..i] == rels;
  }

  lemma IdOf(r: Relation)
    ensures RelationId(r) == r.id
  {
  }

  lemma NothingFrom(otherEnd: Relation -> Id, inScope: set<Id>, offered: seq<Relation>)
    ensures offered + Keep(HasOther(otherEnd, inScope), []) == offered
    ensures FirstPerKey(RelationId, []) == []
  {
  }

  lemma OfferedNext(otherEnd: Relation -> Id, inScope: set<Id>, offered: seq<Relation>, rels: seq<Relation>,
                    r: Relation)
    ensures var seen := offered + Keep(HasOther(otherEnd, inScope), rels);
      offered + Keep(HasOther(otherEnd, inScope), rels + [r]) == if otherEnd(r) in inScope then seen + [r] else seen
  {
    KeepAppend(HasOther(otherEnd, inScope), rels, r);
    hide Keep;
    var kept := Keep(HasOther(otherEnd, inScope), rels);
    assert kept + [] == kept && offered + (kept + [r]) == (offered + kept) + [r];
  }

  /** The relations among the kept entities and the seeds, in the order in which the loops come across them. */
  method CollectRelations(g: Graph, kept: seq<Id>, inScope: set<Id>) returns (out: seq<Relation>)
    requires EndsExist(g)
    ensures out == FirstPerKey(RelationId, Offered(g, kept, inScope))
    ensures Distinct(Image(RelationId, out))
    ensures forall r :: r in out <==> r in g.relations && Connects(kept, inScope, r)
  {
    hide *;
    out := [];
    NothingFrom(Target, inScope, []);
    NothingOffered(g, inScope);
    var i := 0;
    while i < |kept|
      invariant 0 <= i <= |kept| && out == FirstPerKey(RelationId, Offered(g, kept[..i], inScope))
    {
      var e := kept[i];
      assert kept[..i + 1][..i] == kept[..i] && kept[..i + 1][i] == e;
      ghost var offered := Offered(g, kept[..i], inScope);
      OfferedByNext(g, kept[..i + 1], inScope);
      out := CollectFrom(Keep(LeavesFrom(e), g.relations), Target, inScope, out, offered);
      out := CollectFrom(Keep(ArrivesAt(e), g.relations), Source, inScope, out,
                         offered + Keep(HasOther(Target, inScope), Keep(LeavesFrom(e), g.relations)));
      i := i + 1;
    }
    assert kept[..i] == kept;
    CollectedExactly(g, kept, inScope);
  }

  lemma NothingOffered(g: Graph, inScope: set<Id>)
    ensures Offered(g, [], inScope) == []
  {
  }

  lemma OfferedByNext(g: Graph, kept: seq<Id>, inScope: set<Id>)
    requires kept != []
    ensures var e := kept[|kept| - 1];
      Offered(g, kept, inScope)
        == Offered(g, kept[..|kept| - 1], inScope)
           + Keep(HasOther(Target, inScope), Keep(LeavesFrom(e), g.relations))
           + Keep(HasOther(Source, inScope), Keep(ArrivesAt(e), g.relations))
  {
  }

  lemma {:induction false} OfferedExactly(g: Graph, kept: seq<Id>, inScope: set<Id>, r: Relation)
    ensures r in Offered(g, kept, inScope) <==> r in g.relations && Connects(kept, inScope, r)
  {
    hide *;
    NothingOffered(g, inScope);
    if kept == [] {
      ConnectsNothing(inScope, r);
    } else {
      var n := |kept| - 1;
      assert kept == kept[..n] + [kept[n]];
      OfferedExactly(g, kept[..n], inScope, r);
      OfferedByNext(g, kept, inScope);
      OfferedByOne(g, kept[n], inScope, r);
      ConnectsNext(kept[..n], kept[n], inScope, r);
    }
  }

  lemma OfferedByOne(g: Graph, e: Id, inScope: set<Id>, r: Relation)
    ensures r in Keep(HasOther(Target, inScope), Keep(LeavesFrom(e), g.relations))
       <==> r in g.relations && r.source == e && r.target in inScope
    ensures r in Keep(HasOther(Source, inScope), Keep(ArrivesAt(e), g.relations))
       <==> r in g.relations && r.target == e && r.source in inScope
  {
    hide Keep;
    var leaving, arriving := Keep(LeavesFrom(e), g.relations), Keep(ArrivesAt(e), g.relations);
    assert LeavesFrom(e)(r) == (r.source == e) && ArrivesAt(e)(r) == (r.target == e);
    HasOtherIs(Target, inScope, r);
    HasOtherIs(Source, inScope, r);
    assert r in Keep(HasOther(Target, inScope), leaving) <==> r in leaving && HasOther(Target, inScope)(r);
    assert r in Keep(HasOther(Source, inScope), arriving) <==> r in arriving && HasOther(Source, inScope)(r);
  }

  lemma HasOtherIs(otherEnd: Relation -> Id, inScope: set<Id>, r: Relation)
    ensures HasOther(otherEnd, inScope)(r) <==> otherEnd(r) in inScope
  {
  }

  lemma ConnectsNothing(inScope: set<Id>, r: Relation)
    ensures !Connects([], inScope, r)
  {
  }

  lemma ConnectsNext(kept: seq<Id>, e: Id, inScope: set<Id>, r: Relation)
    ensures Connects(kept + [e], inScope, r) <==>
      || Connects(kept, inScope, r)
      || (r.source == e && r.target in inScope) || (r.target == e && r.source in inScope)
  {
  }

  lemma CollectedExactly(g: Graph, kept: seq<Id>, inScope: set<Id>)
    requires EndsExist(g)
    ensures var out := FirstPerKey(RelationId, Offered(g, kept, inScope));
      && Distinct(Image(RelationId, out))
      && forall r :: r in out <==> r in g.relations && Connects(kept, inScope, r)
  {
    hide Connects, FirstPerKey, Offered, Distinct;
    var offered := Offered(g, kept, inScope);
    forall r ensures r in offered <==> r in g.relations && Connects(kept, inScope, r) {
      OfferedExactly(g, kept, inScope, r);
    }
    FirstPerKeyKeys(RelationId, offered);
    IdsIdentify(g);
    var out := FirstPerKey(RelationId, offered);
    forall r | r in offered ensures r in out {
      var i :| 0 <= i < |offered| && offered[i] == r;
      assert Image(RelationId, offered)[i] in Image(RelationId, out);
      var j :| 0 <= j < |out| && Image(RelationId, out)[j] == r.id;
      assert out[j] in out && out[j].id == r.id;
    }
  }

  lemma IdsIdentify(g: Graph)
    requires EndsExist(g)
    ensures forall r, q :: r in g.relations && q in g.relations && r.id == q.id ==> r == q
  {
    forall r, q | r in g.relations && q in g.relations && r.id == q.id ensures r == q {
      var i :| 0 <= i < |g.relations| && g.relations[i] == r;
      var j :| 0 <= j < |g.relations| && g.relations[j] == q;
      assert Image(RelationId, g.relations)[i] == Image(RelationId, g.relations)[j];
    }
  }

  /** traverse: from the hop map, in row order, to the kept entities, relations and hops. */
  method Traverse(g: Graph, seeds: seq<Id>, limits: Limits, hops: map<Id, nat>, order: seq<Id>,
                  load: seq<Id> -> seq<Id>)
    returns (r: Traversed)
    requires EndsExist(g) && IsHopMap(g, seeds, limits.maxHops, hops)
    requires Distinct(order) && forall e :: e in order <==> e in hops
    requires forall s: seq<Id> :: Permutation(s, load(s))
    ensures KeptWell(g, limits, hops, Keep(Elsewhere(seeds), order), r.kept)
    ensures Distinct(Image(RelationId, r.relations))
    ensures forall q :: q in r.relations <==> q in g.relations && Connects(r.kept, Members(r.kept) + Members(seeds), q)
    ensures r.relations == FirstPerKey(RelationId, Offered(g, r.kept, Members(r.kept) + Members(seeds)))
    ensures r.relations == [] <==> r.kept == []
    ensures r.hops == map v | v in hops && (v in r.kept || v in seeds) :: hops[v]
  {
    hide *;
    NothingKept(g, limits, hops, seeds);
    NothingOffered(g, Members([]) + Members(seeds));
    NothingFrom(Target, {}, []);
    if seeds == [] {
      assert order != [] ==> order[0] in hops;
      NothingWithoutSeeds(g, limits.maxHops, hops);
      return Traversed([], [], map[]);
    }
    KeepIsDistinct(Elsewhere(seeds), order);
    var candidates := Keep(Elsewhere(seeds), order);
    var kept: seq<Id> := [];
    if candidates != [] {
      kept := KeepWithinLimits(g, limits, hops, candidates, load);
    }
    var inScope := Members(kept) + Members(seeds);
    var relations := CollectRelations(g, kept, inScope);
    EntitiesBringRelations(g, seeds, limits, hops, order, kept);
    InScope(kept, seeds);
    assert relations != [] ==> relations[0] in relations;
    r := Traversed(kept, relations, map v | v in hops && v in inScope :: hops[v]);
  }

  lemma NothingKept(g: Graph, limits: Limits, hops: map<Id, nat>, seeds: seq<Id>)
    ensures Keep(Elsewhere(seeds), []) == [] && KeptWell(g, limits, hops, [], [])
    ensures Distinct(Image(RelationId, []))
    ensures forall q, scope :: !Connects([], scope, q)
  {
  }

  lemma InScope(kept: seq<Id>, seeds: seq<Id>)
    ensures forall v :: v in Members(kept) + Members(seeds) <==> v in kept || v in seeds
  {
  }

  lemma NothingWithoutSeeds(g: Graph, maxHops: int, hops: map<Id, nat>)
    requires IsHopMap(g, [], maxHops, hops)
    ensures hops == map[]
  {
    forall v ensures v !in hops {
      var d: nat := if v in hops then hops[v] else 0;
      assert !Distance(g, [], v, d);
    }
  }

  /** Both ends of a returned relation are in the hop map, at most one hop apart, so the
      hop reported for it, one more than the nearer end's, lies between 1 and maxHops + 1. */
  lemma ReportedHops(g: Graph, seeds: seq<Id>, maxHops: int, hops: map<Id, nat>, kept: seq<Id>, q: Relation)
    requires EndsExist(g) && IsHopMap(g, seeds, maxHops, hops)
    requires forall e :: e in kept ==> e in hops && e !in seeds
    requires q in g.relations && Connects(kept, Members(kept) + Members(seeds), q)
    ensures q.source in hops && q.target in hops
    ensures -1 <= hops[q.source] as int - hops[q.target] as int <= 1
    ensures 1 <= Smaller(hops[q.source], hops[q.target]) + 1 <= Limit(maxHops) + 1
    ensures hops[q.source] > 0 || hops[q.target] > 0
  {
    InHopMap(g, seeds, maxHops, hops, kept, q.source);
    InHopMap(g, seeds, maxHops, hops, kept, q.target);
    NeighboursAreClose(g, seeds, maxHops, hops, q.source, q.target);
    NeighboursAreClose(g, seeds, maxHops, hops, q.target, q.source);
    forall e | e in kept ensures hops[e] > 0 {
      ReachesStart(g, seeds, e);
      assert Distance(g, seeds, e, hops[e]);
    }
  }

  lemma InHopMap(g: Graph, seeds: seq<Id>, maxHops: int, hops: map<Id, nat>, kept: seq<Id>, e: Id)
    requires IsHopMap(g, seeds, maxHops, hops) && e in g.entities
    requires forall x :: x in kept ==> x in hops
    requires e in kept || e in seeds
    ensures e in hops && hops[e] <= Limit(maxHops)
  {
    if e in seeds {
      ReachesStart(g, seeds, e);
      assert Distance(g, seeds, e, 0);
    } else {
      assert Distance(g, seeds, e, hops[e]);
    }
  }

  lemma NeighboursAreClose(g: Graph, seeds: seq<Id>, maxHops: int, hops: map<Id, nat>, u: Id, v: Id)
    requires IsHopMap(g, seeds, maxHops, hops) && u in hops && v in hops && Adjacent(g, u, v)
    ensures hops[v] <= hops[u] + 1
  {
    assert Distance(g, seeds, u, hops[u]) && Distance(g, seeds, v, hops[v]);
    ReachesNext(g, seeds, v, hops[u]);
  }

  /** A traversal returns relations exactly when it returns entities: a kept entity is a seed's neighbour or
      further out, and then the caps have kept some neighbour of a seed, with the relation between them. */
  lemma EntitiesBringRelations(g: Graph, seeds: seq<Id>, limits: Limits, hops: map<Id, nat>, order: seq<Id>,
                               kept: seq<Id>)
    requires EndsExist(g) && IsHopMap(g, seeds, limits.maxHops, hops) && forall e :: e in order <==> e in hops
    requires KeptWell(g, limits, hops, Keep(Elsewhere(seeds), order), kept)
    ensures kept != [] <==> exists q :: q in g.relations && Connects(kept, Members(kept) + Members(seeds), q)
  {
    hide DroppedLast, EarlyInHop, Sorted, ByHopAndDegree, Keep, AtHop, Quota, Distinct;
    KeptAreCandidates(g, limits, hops, seeds, order, kept);
    if kept != [] {
      var e := kept[0];
      assert e in kept && Distance(g, seeds, e, hops[e]);
      ReachesStart(g, seeds, e);
      var x := e;
      if hops[e] > 1 {
        x := KeptNeighbour(g, seeds, limits, hops, order, kept, e);
      }
      ReachesNext(g, seeds, x, 0);
      var u :| Reaches(g, seeds, u, 0) && Adjacent(g, u, x);
      ReachesStart(g, seeds, u);
      var q :| q in g.relations && ((q.source == u && q.target == x) || (q.source == x && q.target == u));
      assert Connects(kept, Members(kept) + Members(seeds), q);
    }
  }

  lemma KeptAreCandidates(g: Graph, limits: Limits, hops: map<Id, nat>, seeds: seq<Id>, order: seq<Id>, kept: seq<Id>)
    requires KeptWell(g, limits, hops, Keep(Elsewhere(seeds), order), kept)
    ensures forall e :: e in kept ==> e in order && e !in seeds
  {
    hide DroppedLast, EarlyInHop, Sorted, ByHopAndDegree, Quota, Distinct;
  }

  /** With an entity two or more hops away, some neighbour of a seed was kept. */
  lemma KeptNeighbour(g: Graph, seeds: seq<Id>, limits: Limits, hops: map<Id, nat>, order: seq<Id>, kept: seq<Id>,
                      e: Id) returns (x: Id)
    requires EndsExist(g) && IsHopMap(g, seeds, limits.maxHops, hops) && forall v :: v in order <==> v in hops
    requires KeptWell(g, limits, hops, Keep(Elsewhere(seeds), order), kept)
    requires e in kept && hops[e] > 1
    ensures x in kept && hops[x] == 1 && Reaches(g, seeds, x, 1)
  {
    hide DroppedLast, EarlyInHop, Sorted, ByHopAndDegree, Distinct;
    var candidates := Keep(Elsewhere(seeds), order);
    var v := FirstStep(g, seeds, limits.maxHops, hops, e);
    assert v in candidates && AtHop(hops, 1)(v) && v in Keep(AtHop(hops, 1), candidates);
    assert AtHop(hops, hops[e])(e) && e in Keep(AtHop(hops, hops[e]), kept);
    assert |Keep(AtHop(hops, 1), kept)| == Quota(limits, hops, candidates, 1) > 0;
    x := Keep(AtHop(hops, 1), kept)[0];
    assert x in Keep(AtHop(hops, 1), kept) && Distance(g, seeds, x, hops[x]);
  }

  /** The first entity on a shortest walk of two relations or more. */
  lemma FirstStep(g: Graph, seeds: seq<Id>, maxHops: int, hops: map<Id, nat>, e: Id) returns (v: Id)
    requires EndsExist(g) && IsHopMap(g, seeds, maxHops, hops) && e in hops && hops[e] > 1
    ensures v in hops && hops[v] == 1 && v !in seeds
  {
    var d := hops[e];
    assert Distance(g, seeds, e, d);
    var p: seq<Id> :| |p| == d + 1 && p[0] in seeds && p[0] in g.entities && p[d] == e && IsWalk(g, p);
    v := p[1];
    assert Adjacent(g, p[0], v);
    var q := p[1..];
    forall i | 0 <= i < |q| - 1 ensures Adjacent(g, q[i], q[i + 1]) {
      assert Adjacent(g, p[i + 1], p[i + 2]);
    }
    var n: nat := d - 1;
    assert |q| == n + 1 && q[0] == v && q[n] == e && IsWalk(g, q);
    assert !Reaches(g, seeds, e, n);
    ReachesStart(g, seeds, v);
    ReachesStart(g, seeds, p[0]);
    ReachesNext(g, seeds, v, 0);
    assert Distance(g, seeds, v, 1);
  }
}
