/** Scoring chunks against the query, dropping near-duplicates greedily, and
    sharing linked chunks out between seeds and hop entities. */
module Deduplication {
  import opened Sequences

  type Id = int
  type Vector = seq<real>

  datatype Chunk = Chunk(id: Id, text: string, embedding: Option<Vector>)

  /** A chunk with the entity it is shown for; similarity stands for the cosine, of which only the order matters. */
  datatype Scored = Scored(similarity: int, chunk: Chunk, entity: Id)

  function ChunkId(s: Scored): Id { s.chunk.id }

  /** Similar(u, v): the cosine of two vectors of one dimension reaches the threshold. */
  type Similar = (Vector, Vector) -> bool

  predicate Embedded(s: Scored) { s.chunk.embedding.Some? }

  predicate Duplicates(similar: Similar, a: Scored, b: Scored) {
    && Embedded(a) && Embedded(b)
    && |a.chunk.embedding.value| == |b.chunk.embedding.value|
    && similar(a.chunk.embedding.value, b.chunk.embedding.value)
  }

  predicate RepeatsOneOf(similar: Similar, x: Scored, kept: seq<Scored>) {
    exists k :: k in kept && Duplicates(similar, x, k)
  }

  /** What the greedy pass keeps. */
  function Deduped(similar: Similar, scored: seq<Scored>): seq<Scored> {
    if scored == [] then []
    else
      var n := |scored| - 1;
      var kept := Deduped(similar, scored[..n]);
      if Embedded(scored[n]) && !RepeatsOneOf(similar, scored[n], kept) then kept + [scored[n]] else kept
  }

  /** deduplicate_chunks */
  method DeduplicateChunks(similar: Similar, scored: seq<Scored>) returns (kept: seq<Scored>)
    ensures kept == Deduped(similar, scored)
  {
    kept := [];
    var i := 0;
    while i < |scored|
      invariant 0 <= i <= |scored| && kept == Deduped(similar, scored[..i])
    {
      assert scored[..i + 1][..i] == scored[..i];
      var x := scored[i];
      if Embedded(x) {
        var isDuplicate, j := false, 0;
        while j < |kept| && !isDuplicate
          invariant 0 <= j <= |kept|
          invariant isDuplicate <==> RepeatsOneOf(similar, x, kept[..j])
        {
          assert kept[..j + 1] == kept[..j] + [kept[j]];
          assert forall k :: k in kept[..j + 1] <==> k in kept[..j] || k == kept[j];
          isDuplicate := Duplicates(similar, x, kept[j]);
          j := j + 1;
        }
        assert forall k :: k in kept[..j] ==> k in kept;
        assert kept[..|kept|] == kept;
        if !isDuplicate {
          kept := kept + [x];
        }
      }
      i := i + 1;
    }
    assert scored[..i] == scored;
  }

  // ---- What survives ----

  lemma {:induction false} DedupedOfConcat(similar: Similar, a: seq<Scored>, b: seq<Scored>)
    ensures Deduped(similar, a) <= Deduped(similar, a + b)
    ensures forall x :: x in Deduped(similar, a + b)[|Deduped(similar, a)|..] ==> x in b
  {
    if b == [] {
      assert a + b == a;
    } else {
      var n := |b| - 1;
      assert (a + b)[..|a + b| - 1] == a + b[..n];
      DedupedOfConcat(similar, a, b[..n]);
      var before, after, start := Deduped(similar, a + b[..n]), Deduped(similar, a + b), |Deduped(similar, a)|;
      assert after == before || after == before + [b[n]];
      assert after[start..] == before[start..] || after[start..] == before[start..] + [b[n]];
    }
  }

  /** No kept chunk repeats another. */
  lemma {:induction false} KeptAreApart(similar: Similar, scored: seq<Scored>)
    ensures var kept := Deduped(similar, scored);
      && (forall x :: x in kept ==> x in scored && Embedded(x))
      && (forall i, j :: 0 <= i < j < |kept| ==> !Duplicates(similar, kept[j], kept[i]))
  {
    if scored == [] {
    } else {
      var n := |scored| - 1;
      KeptAreApart(similar, scored[..n]);
      assert scored == scored[..n] + [scored[n]];
      assert forall k :: k in Deduped(similar, scored[..n]) && Duplicates(similar, scored[n], k) ==>
        RepeatsOneOf(similar, scored[n], Deduped(similar, scored[..n]));
    }
  }

  /** The chunk at position i repeats one that survives at an earlier position. */
  ghost predicate RepeatsEarlier(similar: Similar, scored: seq<Scored>, at: seq<nat>, i: nat)
    requires i < |scored|
  {
    exists j :: j in at && j < i && Duplicates(similar, scored[i], scored[j])
  }

  /** Position by position: an embedded chunk survives exactly when it repeats no survivor before it. */
  lemma {:induction false} DroppedRepeatEarlier(similar: Similar, scored: seq<Scored>) returns (at: seq<nat>)
    ensures PicksAt(scored, Deduped(similar, scored), at)
    ensures forall i: nat :: i < |scored| ==>
      (i in at <==> Embedded(scored[i]) && !RepeatsEarlier(similar, scored, at, i))
  {
    hide *;
    if scored == [] {
      at := [];
      NothingSurvives(similar);
    } else {
      var n := |scored| - 1;
      var front, x := scored[..n], scored[n];
      assert scored == front + [x];
      DedupedNext(similar, front, x);
      var kept := Deduped(similar, front);
      var before := DroppedRepeatEarlier(similar, front);
      at := before + if Embedded(x) && !RepeatsOneOf(similar, x, kept) then [n] else [];
      PositionsGrow(scored, n, kept, before);
      RepeatsAtEnd(similar, scored, n, kept, before, at[|before|..]);
      forall i: nat | i < |scored|
        ensures i in at <==> Embedded(scored[i]) && !RepeatsEarlier(similar, scored, at, i)
      {
        if i < n {
          RepeatsBefore(similar, scored, n, before, at[|before|..], i);
        }
      }
    }
  }

  /** In terms of the vectors: it has one, and no survivor before it has one of the same dimension that is similar. */
  lemma SurvivesExactly(similar: Similar, scored: seq<Scored>) returns (at: seq<nat>)
    ensures PicksAt(scored, Deduped(similar, scored), at)
    ensures forall i: nat :: i < |scored| ==>
      (i in at <==>
        && scored[i].chunk.embedding.Some?
        && forall j :: j in at && j < i && scored[j].chunk.embedding.Some? ==>
             var u, v := scored[i].chunk.embedding.value, scored[j].chunk.embedding.value;
             |u| != |v| || !similar(u, v))
  {
    at := DroppedRepeatEarlier(similar, scored);
    hide Deduped;
  }

  lemma NothingSurvives(similar: Similar)
    ensures PicksAt([], Deduped(similar, []), [])
  {
  }

  lemma PositionsGrow(scored: seq<Scored>, n: nat, kept: seq<Scored>, at: seq<nat>)
    requires n < |scored| && PicksAt(scored[..n], kept, at)
    ensures PicksAt(scored, kept, at + []) && PicksAt(scored, kept + [scored[n]], at + [n])
    ensures forall i :: i in at ==> i < n
  {
  }

  lemma RepeatsAtEnd(similar: Similar, scored: seq<Scored>, n: nat, kept: seq<Scored>, at: seq<nat>, rest: seq<nat>)
    requires n < |scored| && PicksAt(scored[..n], kept, at) && forall j :: j in rest ==> j >= n
    ensures RepeatsEarlier(similar, scored, at + rest, n) <==> RepeatsOneOf(similar, scored[n], kept)
  {
    hide Duplicates;
    if k :| k in kept && Duplicates(similar, scored[n], k) {
      var l :| 0 <= l < |kept| && kept[l] == k;
      assert at[l] in at + rest && scored[at[l]] == k;
    }
    if j :| j in at + rest && j < n && Duplicates(similar, scored[n], scored[j]) {
      var l :| 0 <= l < |at| && at[l] == j;
      assert kept[l] == scored[j];
    }
  }

  lemma RepeatsBefore(similar: Similar, scored: seq<Scored>, n: nat, at: seq<nat>, rest: seq<nat>, i: nat)
    requires i < n < |scored| && forall j :: j in rest ==> j >= n
    ensures RepeatsEarlier(similar, scored, at + rest, i) <==> RepeatsEarlier(similar, scored[..n], at, i)
  {
    hide Duplicates;
    if j :| j in at && j < i && Duplicates(similar, scored[..n][i], scored[..n][j]) {
      assert j in at + rest;
    }
  }

  lemma DedupedNext(similar: Similar, front: seq<Scored>, x: Scored)
    ensures Deduped(similar, front + [x])
      == if Embedded(x) && !RepeatsOneOf(similar, x, Deduped(similar, front)) then Deduped(similar, front) + [x]
         else Deduped(similar, front)
  {
    assert (front + [x])[..|front|] == front;
  }

  lemma {:induction false} ApartSurvive(similar: Similar, kept: seq<Scored>)
    requires forall x :: x in kept ==> Embedded(x)
    requires forall i, j :: 0 <= i < j < |kept| ==> !Duplicates(similar, kept[j], kept[i])
    ensures Deduped(similar, kept) == kept
  {
    if kept == [] {
    } else {
      var n := |kept| - 1;
      ApartSurvive(similar, kept[..n]);
      assert kept == kept[..n] + [kept[n]];
    }
  }

  /** A second pass drops nothing. */
  lemma {:induction false} DedupIsIdempotent(similar: Similar, scored: seq<Scored>)
    ensures Deduped(similar, Deduped(similar, scored)) == Deduped(similar, scored)
  {
    KeptAreApart(similar, scored);
    ApartSurvive(similar, Deduped(similar, scored));
  }

  // ---- Seeds before hops ----

  function Ids(scored: seq<Scored>): set<Id> { set s | s in scored :: s.chunk.id }

  function HasIdIn(ids: set<Id>): Scored -> bool { (s: Scored) => s.chunk.id in ids }

  /** With distinct chunks, filtering by the survivors' ids gives the survivors in their order. */
  lemma {:induction false} SurvivorsById(similar: Similar, scored: seq<Scored>)
    requires Distinct(Image(ChunkId, scored))
    ensures Keep(HasIdIn(Ids(Deduped(similar, scored))), scored) == Deduped(similar, scored)
  {
    if scored == [] {
    } else {
      var n := |scored| - 1;
      var front, last := scored[..n], scored[n];
      assert scored == front + [last];
      assert Image(ChunkId, front) == Image(ChunkId, scored)[..n];
      SurvivorsById(similar, front);
      LastIdIsNew(similar, front, last);
      var before, after := Deduped(similar, front), Deduped(similar, scored);
      assert after == before || after == before + [last];
      assert after == before + [last] ==> last in after;
      assert forall s :: s in after <==> s in before || (after == before + [last] && s == last);
      assert HasIdIn(Ids(after))(last) <==> after == before + [last];
      hide Deduped;
      SameKept(HasIdIn(Ids(after)), HasIdIn(Ids(before)), front);
      KeepAppend(HasIdIn(Ids(after)), front, last);
    }
  }

  lemma LastIdIsNew(similar: Similar, front: seq<Scored>, last: Scored)
    requires Distinct(Image(ChunkId, front + [last]))
    ensures forall s :: s in front || s in Deduped(similar, front) ==> s.chunk.id != last.chunk.id
  {
    KeptAreApart(similar, front);
    var ids := Image(ChunkId, front + [last]);
    forall s | s in front ensures s.chunk.id != last.chunk.id {
      var i :| 0 <= i < |front| && front[i] == s;
      assert ids[i] != ids[|front|];
    }
  }

  lemma {:induction false} SameKept<A(!new)>(p: A -> bool, q: A -> bool, s: seq<A>)
    requires forall x :: x in s ==> p(x) == q(x)
    ensures Keep(p, s) == Keep(q, s)
  {
    if s == [] {
    } else {
      SameKept(p, q, s[..|s| - 1]);
    }
  }

  lemma SeedIdsIgnoreHops(similar: Similar, seeds: seq<Scored>, hops: seq<Scored>, s: Scored)
    requires Distinct(Image(ChunkId, seeds + hops)) && s in seeds
    ensures s.chunk.id in Ids(Deduped(similar, seeds + hops)) <==> s.chunk.id in Ids(Deduped(similar, seeds))
  {
    var kept, front := Deduped(similar, seeds + hops), Deduped(similar, seeds);
    DedupedOfConcat(similar, seeds, hops);
    IdsAreApart(seeds, hops, s);
    assert kept == front + kept[|front|..];
    assert forall k :: k in kept <==> k in front || k in kept[|front|..];
    assert forall k :: k in kept && k.chunk.id == s.chunk.id ==> k in front;
  }

  /** Hop chunks never change which seed chunks survive, and the two filtered lists are the survivors, in order. */
  lemma SeedsIgnoreHops(similar: Similar, seeds: seq<Scored>, hops: seq<Scored>)
    requires Distinct(Image(ChunkId, seeds + hops))
    ensures var kept := Deduped(similar, seeds + hops);
      && Keep(HasIdIn(Ids(kept)), seeds) == Deduped(similar, seeds)
      && Keep(HasIdIn(Ids(kept)), seeds) + Keep(HasIdIn(Ids(kept)), hops) == kept
  {
    var kept := Deduped(similar, seeds + hops);
    SurvivorsById(similar, seeds + hops);
    KeepConcat(HasIdIn(Ids(kept)), seeds, hops);
    assert Image(ChunkId, seeds) == Image(ChunkId, seeds + hops)[..|seeds|];
    SurvivorsById(similar, seeds);
    forall s | s in seeds ensures HasIdIn(Ids(kept))(s) == HasIdIn(Ids(Deduped(similar, seeds)))(s) {
      SeedIdsIgnoreHops(similar, seeds, hops, s);
    }
    hide *;
    SameKept(HasIdIn(Ids(kept)), HasIdIn(Ids(Deduped(similar, seeds))), seeds);
  }

  lemma IdsAreApart(seeds: seq<Scored>, hops: seq<Scored>, s: Scored)
    requires Distinct(Image(ChunkId, seeds + hops)) && s in seeds
    ensures forall k :: k in hops ==> k.chunk.id != s.chunk.id
  {
    var ids := Image(ChunkId, seeds + hops);
    var i :| 0 <= i < |seeds| && seeds[i] == s;
    forall k | k in hops ensures k.chunk.id != s.chunk.id {
      var j :| 0 <= j < |hops| && hops[j] == k;
      assert ids[i] != ids[|seeds| + j];
    }
  }
}
