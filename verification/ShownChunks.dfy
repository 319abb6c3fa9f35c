/** Which chunks an assembly shows, for which entities and in which order, told
    from the link rows, the chunks and their similarities alone. */
module ShownChunks {
  import opened Sequences
  import opened Budgets
  import opened Deduplication
  import opened ChunkPairs
  import opened ContextAssembly

  // ---- Which entity a chunk is shown for ----

  /** The entity of the first row that links the chunk to one of the given entities. */
  function FirstAmong(links: seq<Link>, chunk: Id, among: set<Id>): Option<Id> {
    if links == [] then None
    else
      var l := links[|links| - 1];
      var before := FirstAmong(links[..|links| - 1], chunk, among);
      if before.Some? then before else if l.chunk == chunk && l.entity in among then Some(l.entity) else None
  }

  lemma {:induction false} FirstIsHead(links: seq<Link>, chunk: Id, among: set<Id>)
    ensures var linked := Keep(IsIn(among), EntitiesOf(links, chunk));
      FirstAmong(links, chunk, among) == if linked == [] then None else Some(linked[0])
  {
    if links == [] {
      assert EntitiesOf(links, chunk) == [];
    } else {
      var n := |links| - 1;
      var front, l := links[..n], links[n];
      assert links == front + [l];
      FirstIsHead(front, chunk, among);
      NextLink(front, l);
      var entities := EntitiesOf(front, chunk);
      hide EntitiesOf, Keep;
      if l.chunk == chunk {
        KeepAppend(IsIn(among), entities, l.entity);
      } else {
        assert entities + [] == entities;
      }
    }
  }

  lemma {:induction false} FirstOfRows(ids: set<Id>, links: seq<Link>, chunk: Id, among: set<Id>)
    requires among <= ids
    ensures FirstAmong(Keep(LinksTo(ids), links), chunk, among) == FirstAmong(links, chunk, among)
  {
    if links == [] {
    } else {
      var n := |links| - 1;
      assert links == links[..n] + [links[n]];
      FirstOfRows(ids, links[..n], chunk, among);
      KeepAppend(LinksTo(ids), links[..n], links[n]);
      var kept := Keep(LinksTo(ids), links[..n]);
      assert (kept + [links[n]])[..|kept|] == kept && kept + [] == kept;
    }
  }

  lemma FirstIsInOrder(links: seq<Link>, chunk: Id, among: set<Id>)
    requires FirstAmong(links, chunk, among).Some?
    ensures chunk in ChunkOrder(links)
  {
    FirstIsHead(links, chunk, among);
    var linked := Keep(IsIn(among), EntitiesOf(links, chunk));
    assert linked[0] in linked;
    hide Keep;
    if chunk !in ChunkOrder(links) {
      NoEarlierLink(links, chunk);
    }
  }

  /** The seed pairs: each fetched chunk some row links to a seed, for the seed of the first such row. */
  lemma {:induction false} SeedPairsAre(links: seq<Link>, chunks: map<Id, Chunk>, seeds: set<Id>, order: seq<Id>,
                                        p: Pair)
    ensures p in SeedPairs(links, chunks, seeds, order) <==>
      exists id :: id in order && id in chunks
        && p.chunk == chunks[id] && FirstAmong(links, id, seeds) == Some(p.entity)
  {
    hide EntitiesOf, FirstAmong;
    if order == [] {
    } else {
      var n := |order| - 1;
      assert order == order[..n] + [order[n]];
      SeedPairsAre(links, chunks, seeds, order[..n], p);
      FirstIsHead(links, order[n], seeds);
    }
  }

  /** The hop pairs: each other fetched chunk with a row, for the entity of its first row. */
  lemma {:induction false} HopPairsAre(links: seq<Link>, chunks: map<Id, Chunk>, seeds: set<Id>, ids: set<Id>,
                                       order: seq<Id>, p: Pair)
    requires forall l :: l in links ==> l.entity in ids
    ensures p in HopPairs(links, chunks, seeds, order) <==>
      exists id :: id in order && id in chunks && p.chunk == chunks[id]
        && FirstAmong(links, id, seeds) == None && FirstAmong(links, id, ids) == Some(p.entity)
  {
    hide FirstAmong, HopPair;
    if order == [] {
    } else {
      var n := |order| - 1;
      assert order == order[..n] + [order[n]];
      HopPairsAre(links, chunks, seeds, ids, order[..n], p);
      OneHopPair(links, chunks, seeds, ids, order[n], p);
    }
  }

  lemma OneHopPair(links: seq<Link>, chunks: map<Id, Chunk>, seeds: set<Id>, ids: set<Id>, id: Id, p: Pair)
    requires forall l :: l in links ==> l.entity in ids
    ensures p in HopPair(links, chunks, seeds, id) <==>
      id in chunks && p.chunk == chunks[id]
      && FirstAmong(links, id, seeds) == None && FirstAmong(links, id, ids) == Some(p.entity)
  {
    FirstIsHead(links, id, seeds);
    FirstIsHead(links, id, ids);
    var entities := EntitiesOf(links, id);
    assert forall e :: e in entities ==> e in ids;
    KeepAll(IsIn(ids), entities);
    hide EntitiesOf, FirstAmong, Keep;
  }

  // ---- Which chunks can be shown, and how similar they are ----

  /** s scores chunk c for entity e: by the cosine of its embedding, or of its text's, when it has the query's
      dimension. */
  predicate IsScored(scoring: Scoring, c: Chunk, e: Id, s: Scored) {
    match c.embedding
    case Some(v) => |v| == |scoring.query| && s == Scored(scoring.cosine(scoring.query, v), c, e)
    case None =>
      var v := scoring.embed(c.text);
      c.text != "" && |v| == |scoring.query|
      && s == Scored(scoring.cosine(scoring.query, v), c.(embedding := Some(v)), e)
  }

  lemma {:induction false} ComparedAre(scoring: Scoring, pairs: seq<Pair>, s: Scored)
    ensures s in Compared(scoring, pairs) <==> exists p :: p in pairs && IsScored(scoring, p.chunk, p.entity, s)
  {
    if pairs == [] {
    } else {
      var n := |pairs| - 1;
      assert pairs == pairs[..n] + [pairs[n]];
      ComparedAre(scoring, pairs[..n], s);
    }
  }

  lemma ScoredAre(scoring: Scoring, pairs: seq<Pair>, s: Scored)
    ensures s in ScoredPairs(scoring, pairs) <==> exists p :: p in pairs && IsScored(scoring, p.chunk, p.entity, s)
  {
    ScoredAreRanked(scoring, pairs);
    ComparedAre(scoring, pairs, s);
    hide Compared, ScoredPairs, IsScored;
    PermutationMembers(Compared(scoring, pairs), ScoredPairs(scoring, pairs));
  }

  /** s scores a fetched chunk linked to a seed, for the first seed linked. */
  ghost predicate CanShowSeed(m: Material, scoring: Scoring, s: Scored) {
    exists id :: id in m.chunks && FirstAmong(m.links, id, SeedIds(m)) == Some(s.entity)
      && IsScored(scoring, m.chunks[id], s.entity, s)
  }

  /** s scores a fetched chunk linked to no seed, for the first traversed entity linked. */
  ghost predicate CanShowHop(m: Material, scoring: Scoring, s: Scored) {
    exists id :: id in m.chunks && FirstAmong(m.links, id, SeedIds(m)) == None
      && FirstAmong(m.links, id, EntityIds(m)) == Some(s.entity) && IsScored(scoring, m.chunks[id], s.entity, s)
  }

  lemma SeedScoredAre(m: Material, lib: Library, s: Scored)
    ensures s in SeedScored(m, lib) <==> CanShowSeed(m, lib.scoring, s)
  {
    hide *;
    var rows, seeds := Rows(m), SeedIds(m);
    var pairs := SeedPairs(rows, m.chunks, seeds, ChunkOrder(rows));
    SeedScoredIs(m, lib);
    ScoredAre(lib.scoring, pairs, s);
    forall p: Pair ensures p in pairs <==> SeedCandidate(m, p) {
      SeedPairsAre(rows, m.chunks, seeds, ChunkOrder(rows), p);
      SeedCandidates(m, p);
    }
    SeedCandidateScored(m, lib.scoring, s);
  }

  ghost predicate SeedCandidate(m: Material, p: Pair) {
    exists id :: id in m.chunks && p.chunk == m.chunks[id] && FirstAmong(m.links, id, SeedIds(m)) == Some(p.entity)
  }

  lemma SeedScoredIs(m: Material, lib: Library)
    ensures var rows := Rows(m);
      SeedScored(m, lib) == ScoredPairs(lib.scoring, SeedPairs(rows, m.chunks, SeedIds(m), ChunkOrder(rows)))
  {
  }

  lemma SeedCandidates(m: Material, p: Pair)
    ensures SeedCandidate(m, p) <==>
      exists id :: id in ChunkOrder(Rows(m)) && id in m.chunks && p.chunk == m.chunks[id]
        && FirstAmong(Rows(m), id, SeedIds(m)) == Some(p.entity)
  {
    forall id
      ensures FirstAmong(Rows(m), id, SeedIds(m)) == FirstAmong(m.links, id, SeedIds(m))
      ensures FirstAmong(Rows(m), id, SeedIds(m)).Some? ==> id in ChunkOrder(Rows(m))
    {
      FirstOfRows(EntityIds(m), m.links, id, SeedIds(m));
      if FirstAmong(Rows(m), id, SeedIds(m)).Some? {
        FirstIsInOrder(Rows(m), id, SeedIds(m));
      }
    }
    hide FirstAmong, Rows, ChunkOrder, SeedIds;
  }

  lemma SeedCandidateScored(m: Material, scoring: Scoring, s: Scored)
    ensures (exists p :: SeedCandidate(m, p) && IsScored(scoring, p.chunk, p.entity, s)) <==> CanShowSeed(m, scoring, s)
  {
    hide FirstAmong, SeedIds;
    if CanShowSeed(m, scoring, s) {
      var id :| id in m.chunks && FirstAmong(m.links, id, SeedIds(m)) == Some(s.entity)
        && IsScored(scoring, m.chunks[id], s.entity, s);
      assert SeedCandidate(m, Pair(m.chunks[id], s.entity));
    }
  }

  lemma HopScoredAre(m: Material, lib: Library, s: Scored)
    ensures s in HopScored(m, lib) <==> CanShowHop(m, lib.scoring, s)
  {
    hide *;
    var rows, seeds := Rows(m), SeedIds(m);
    var pairs := HopPairs(rows, m.chunks, seeds, ChunkOrder(rows));
    HopScoredIs(m, lib);
    ScoredAre(lib.scoring, pairs, s);
    forall p: Pair ensures p in pairs <==> HopCandidate(m, p) {
      RowsAreAmong(m);
      HopPairsAre(rows, m.chunks, seeds, EntityIds(m), ChunkOrder(rows), p);
      HopCandidates(m, p);
    }
    HopCandidateScored(m, lib.scoring, s);
  }

  ghost predicate HopCandidate(m: Material, p: Pair) {
    exists id :: id in m.chunks && p.chunk == m.chunks[id] && FirstAmong(m.links, id, SeedIds(m)) == None
      && FirstAmong(m.links, id, EntityIds(m)) == Some(p.entity)
  }

  lemma HopScoredIs(m: Material, lib: Library)
    ensures var rows := Rows(m);
      HopScored(m, lib) == ScoredPairs(lib.scoring, HopPairs(rows, m.chunks, SeedIds(m), ChunkOrder(rows)))
  {
  }

  lemma RowsAreAmong(m: Material)
    ensures forall l :: l in Rows(m) ==> l.entity in EntityIds(m)
  {
  }

  lemma HopCandidates(m: Material, p: Pair)
    ensures HopCandidate(m, p) <==>
      exists id :: id in ChunkOrder(Rows(m)) && id in m.chunks && p.chunk == m.chunks[id]
        && FirstAmong(Rows(m), id, SeedIds(m)) == None && FirstAmong(Rows(m), id, EntityIds(m)) == Some(p.entity)
  {
    forall id
      ensures FirstAmong(Rows(m), id, SeedIds(m)) == FirstAmong(m.links, id, SeedIds(m))
      ensures FirstAmong(Rows(m), id, EntityIds(m)) == FirstAmong(m.links, id, EntityIds(m))
      ensures FirstAmong(Rows(m), id, EntityIds(m)).Some? ==> id in ChunkOrder(Rows(m))
    {
      FirstOfRows(EntityIds(m), m.links, id, SeedIds(m));
      FirstOfRows(EntityIds(m), m.links, id, EntityIds(m));
      if FirstAmong(Rows(m), id, EntityIds(m)).Some? {
        FirstIsInOrder(Rows(m), id, EntityIds(m));
      }
    }
    hide FirstAmong, Rows, ChunkOrder, SeedIds, EntityIds;
  }

  lemma HopCandidateScored(m: Material, scoring: Scoring, s: Scored)
    ensures (exists p :: HopCandidate(m, p) && IsScored(scoring, p.chunk, p.entity, s)) <==> CanShowHop(m, scoring, s)
  {
    hide FirstAmong, SeedIds, EntityIds;
    if CanShowHop(m, scoring, s) {
      var id :| id in m.chunks && FirstAmong(m.links, id, SeedIds(m)) == None
        && FirstAmong(m.links, id, EntityIds(m)) == Some(s.entity) && IsScored(scoring, m.chunks[id], s.entity, s);
      assert HopCandidate(m, Pair(m.chunks[id], s.entity));
    }
  }

  // ---- What is shown, what is dropped and what is cut ----

  /** Behind the prefix that fits, nothing is more similar than anything in it; whatever else does not survive
      repeats an at least as similar survivor. */
  lemma SurvivesOrRepeats(similar: Similar, scored: seq<Scored>, n: nat, s: Scored)
    requires BestFirst(scored) && s in scored && Embedded(s) && n <= |Deduped(similar, scored)|
    ensures var kept := Deduped(similar, scored);
      || s in kept[..n]
      || (exists k :: k in scored && k.similarity >= s.similarity && Duplicates(similar, s, k))
      || (forall t :: t in kept[..n] ==> t.similarity >= s.similarity)
  {
    var kept := Deduped(similar, scored);
    var at := DroppedRepeatEarlier(similar, scored);
    hide Deduped, Duplicates, Embedded;
    var i :| 0 <= i < |scored| && scored[i] == s;
    if i in at {
      var k :| 0 <= k < |at| && at[k] == i;
      assert kept[k] == s;
      if k < n {
        assert kept[..n][k] == s;
      } else {
        forall t | t in kept[..n] ensures t.similarity >= s.similarity {
          var l :| 0 <= l < n && kept[..n][l] == t;
          assert at[l] < at[k] && kept[l] == scored[at[l]];
        }
      }
    } else {
      var j :| j in at && j < i && Duplicates(similar, scored[i], scored[j]);
      assert scored[j] in scored;
    }
  }

  lemma ScoredHasEmbedding(scoring: Scoring, c: Chunk, e: Id, s: Scored)
    requires IsScored(scoring, c, e, s)
    ensures Embedded(s)
  {
  }

  /** The seed chunks shown are the first of the survivors, most similar first. */
  lemma SeedSlotIs(m: Material, lib: Library, elastic: nat)
    ensures var slot, kept := SeedSlot(m, lib, elastic), SeedSurvivors(m, lib);
      |slot| <= |kept| && slot == Image(ShowSeed, kept[..|slot|])
  {
    hide SeedSurvivors, EntityIds;
    var kept := SeedSurvivors(m, lib);
    FittingIsLongest(ShownText, Image(ShowSeed, kept), lib.share(elastic));
    hide Fitting, LongestFit;
  }

  lemma HopSlotIs(m: Material, lib: Library, elastic: nat)
    ensures var slot, kept := HopSlot(m, lib, elastic), HopSurvivors(m, lib);
      |slot| <= |kept| && slot == Image(ShowHop(m.hopMap), kept[..|slot|])
  {
    hide HopSurvivors, EntityIds;
    var kept := HopSurvivors(m, lib);
    FittingIsLongest(ShownText, Image(ShowHop(m.hopMap), kept), elastic - lib.share(elastic));
    hide Fitting, LongestFit;
  }

  lemma SeedScoredIsRanked(m: Material, lib: Library)
    ensures BestFirst(SeedScored(m, lib)) && BestFirst(HopScored(m, lib))
  {
    ScoredAreRanked(lib.scoring, SeedPairs(Rows(m), m.chunks, SeedIds(m), ChunkOrder(Rows(m))));
    ScoredAreRanked(lib.scoring, HopPairs(Rows(m), m.chunks, SeedIds(m), ChunkOrder(Rows(m))));
    hide ScoredPairs, BestFirst;
  }

  /** Dropping entries keeps the most similar first. */
  lemma {:induction false} KeepIsRanked(p: Scored -> bool, scored: seq<Scored>)
    requires BestFirst(scored)
    ensures BestFirst(Keep(p, scored))
  {
    if scored == [] {
    } else {
      var n := |scored| - 1;
      assert scored == scored[..n] + [scored[n]];
      KeepIsRanked(p, scored[..n]);
      var front := Keep(p, scored[..n]);
      forall i | 0 <= i < |front| ensures front[i].similarity >= scored[n].similarity {
        assert front[i] in front && front[i] in scored[..n];
        var j :| 0 <= j < n && scored[..n][j] == front[i];
      }
    }
  }

  lemma DedupedIsRanked(similar: Similar, scored: seq<Scored>)
    requires BestFirst(scored)
    ensures BestFirst(Deduped(similar, scored))
  {
    var at := DroppedRepeatEarlier(similar, scored);
    hide Deduped, Embedded, RepeatsEarlier;
  }

  /** Both chunk lists of a result run from the most to the least similar. */
  lemma ShownBestFirst(m: Material, lib: Library, slots: SlotBudgets, max: int)
    ensures var result := Assembled(m, lib, slots, max);
      && (forall i, j :: 0 <= i < j < |result.seedChunks| ==>
            result.seedChunks[i].similarity >= result.seedChunks[j].similarity)
      && (forall i, j :: 0 <= i < j < |result.hopChunks| ==>
            result.hopChunks[i].similarity >= result.hopChunks[j].similarity)
  {
    SeedSlotIs(m, lib, Elastic(max, FixedTokens(m, lib, slots)));
    HopSlotIs(m, lib, Elastic(max, FixedTokens(m, lib, slots)));
    SurvivorsAreRanked(m, lib);
    hide SeedSurvivors, HopSurvivors, SeedSlot, HopSlot, FixedTokens, AssembledCounts, AssembledTotal;
  }

  lemma SurvivorsAreRanked(m: Material, lib: Library)
    ensures BestFirst(SeedSurvivors(m, lib)) && BestFirst(HopSurvivors(m, lib))
  {
    SeedScoredIsRanked(m, lib);
    hide SeedScored, HopScored, BestFirst, Deduped, Ids;
    DedupedIsRanked(lib.scoring.similar, SeedScored(m, lib));
    KeepIsRanked(HasIdIn(Ids(Deduped(lib.scoring.similar, SeedScored(m, lib) + HopScored(m, lib)))), HopScored(m, lib));
  }

  /** What is shown for a seed: a fetched chunk with its own text, similarity and first linked seed, at hop 0. */
  lemma ShownSeedChunks(m: Material, lib: Library, elastic: nat, t: Shown)
    requires t in SeedSlot(m, lib, elastic)
    ensures exists s: Scored ::
      CanShowSeed(m, lib.scoring, s) && t == Shown(s.chunk.id, s.entity, s.chunk.text, s.similarity, 0)
  {
    SeedSlotIs(m, lib, elastic);
    SeedKept(m, lib);
    hide SeedSlot, SeedSurvivors, SeedScored, CanShowSeed;
    var slot, kept := SeedSlot(m, lib, elastic), SeedSurvivors(m, lib);
    var i :| 0 <= i < |slot| && slot[i] == t;
    var s := kept[i];
    assert s in kept && slot[i] == ShowSeed(s);
    SeedScoredAre(m, lib, s);
  }

  lemma SeedKept(m: Material, lib: Library)
    ensures forall s :: s in SeedSurvivors(m, lib) ==> s in SeedScored(m, lib)
  {
    KeptAreApart(lib.scoring.similar, SeedScored(m, lib));
    hide SeedScored, Deduped;
  }

  /** What is shown for a traversed entity, at the entity's hop, or hop 1 when the hop map lacks it. */
  lemma ShownHopChunks(m: Material, lib: Library, elastic: nat, t: Shown)
    requires t in HopSlot(m, lib, elastic)
    ensures exists s: Scored ::
      && CanShowHop(m, lib.scoring, s)
      && t == Shown(s.chunk.id, s.entity, s.chunk.text, s.similarity,
                    if s.entity in m.hopMap then m.hopMap[s.entity] else 1)
  {
    HopSlotIs(m, lib, elastic);
    HopKept(m, lib);
    hide HopSlot, HopSurvivors, HopScored, CanShowHop;
    var slot, kept := HopSlot(m, lib, elastic), HopSurvivors(m, lib);
    var i :| 0 <= i < |slot| && slot[i] == t;
    var s := kept[i];
    assert s in kept && slot[i] == ShowHop(m.hopMap)(s);
    HopScoredAre(m, lib, s);
  }

  lemma HopKept(m: Material, lib: Library)
    ensures forall s :: s in HopSurvivors(m, lib) ==> s in HopScored(m, lib)
  {
    hide HopScored, SeedScored, Deduped, Ids;
  }

  /** Each chunk that can be shown for a seed is shown, or repeats an at least as similar one, or is cut by the
      budget and then no more similar than any seed chunk shown. */
  lemma NoBetterSeedChunkIsCut(m: Material, lib: Library, elastic: nat, s: Scored)
    requires CanShowSeed(m, lib.scoring, s)
    ensures || ShowSeed(s) in SeedSlot(m, lib, elastic)
            || (exists k :: CanShowSeed(m, lib.scoring, k) && k.similarity >= s.similarity
                  && Duplicates(lib.scoring.similar, s, k))
            || (forall t :: t in SeedSlot(m, lib, elastic) ==> t.similarity >= s.similarity)
  {
    hide *;
    SeedSlotIs(m, lib, elastic);
    SeedSurvivorsAre(m, lib);
    SeedScoredIsRanked(m, lib);
    forall k ensures k in SeedScored(m, lib) <==> CanShowSeed(m, lib.scoring, k) {
      SeedScoredAre(m, lib, k);
    }
    SeedIsEmbedded(m, lib.scoring, s);
    var slot, kept := SeedSlot(m, lib, elastic), SeedSurvivors(m, lib);
    SurvivesOrRepeats(lib.scoring.similar, SeedScored(m, lib), |slot|, s);
    ShownAreImages(ShowSeed, kept[..|slot|], s);
    ShownSeedsAre(kept[..|slot|], slot, s);
  }

  lemma SeedSurvivorsAre(m: Material, lib: Library)
    ensures SeedSurvivors(m, lib) == Deduped(lib.scoring.similar, SeedScored(m, lib))
  {
  }

  lemma SeedIsEmbedded(m: Material, scoring: Scoring, s: Scored)
    requires CanShowSeed(m, scoring, s)
    ensures Embedded(s)
  {
    hide FirstAmong, SeedIds;
  }

  lemma ShownAreImages<A, B>(f: A -> B, items: seq<A>, x: A)
    ensures x in items ==> f(x) in Image(f, items)
  {
    if x in items {
      var i :| 0 <= i < |items| && items[i] == x;
      assert Image(f, items)[i] == f(x);
    }
  }

  lemma ShownSeedsAre(kept: seq<Scored>, slot: seq<Shown>, s: Scored)
    requires slot == Image(ShowSeed, kept)
    ensures (forall t :: t in kept ==> t.similarity >= s.similarity) ==>
      forall t :: t in slot ==> t.similarity >= s.similarity
  {
    forall t | t in slot && forall k :: k in kept ==> k.similarity >= s.similarity
      ensures t.similarity >= s.similarity
    {
      var i :| 0 <= i < |slot| && slot[i] == t;
      assert kept[i] in kept;
    }
  }

  /** The same for hop chunks, which a seed chunk of any similarity can also make a repeat. */
  lemma NoBetterHopChunkIsCut(m: Material, lib: Library, elastic: nat, s: Scored)
    requires CanShowHop(m, lib.scoring, s)
    ensures || ShowHop(m.hopMap)(s) in HopSlot(m, lib, elastic)
            || (exists k :: CanShowSeed(m, lib.scoring, k) && Duplicates(lib.scoring.similar, s, k))
            || (exists k :: CanShowHop(m, lib.scoring, k) && k.similarity >= s.similarity
                  && Duplicates(lib.scoring.similar, s, k))
            || (forall t :: t in HopSlot(m, lib, elastic) ==> t.similarity >= s.similarity)
  {
    hide *;
    HopSlotIs(m, lib, elastic);
    SurvivorsAreRanked(m, lib);
    SeedScoredIsRanked(m, lib);
    forall k ensures k in SeedScored(m, lib) <==> CanShowSeed(m, lib.scoring, k) {
      SeedScoredAre(m, lib, k);
    }
    forall k ensures k in HopScored(m, lib) <==> CanShowHop(m, lib.scoring, k) {
      HopScoredAre(m, lib, k);
    }
    HopIsEmbedded(m, lib.scoring, s);
    var slot, kept := HopSlot(m, lib, elastic), HopSurvivors(m, lib);
    SurvivesOrRepeatsBehind(lib.scoring.similar, SeedScored(m, lib), HopScored(m, lib), s);
    HopSurvivorsAre(m, lib, s);
    RankedPrefix(kept, |slot|, s);
    ShownAreImages(ShowHop(m.hopMap), kept[..|slot|], s);
    ShownHopsAre(m.hopMap, kept[..|slot|], slot, s);
  }

  lemma HopSurvivorsAre(m: Material, lib: Library, s: Scored)
    requires s in HopScored(m, lib)
    ensures s in Deduped(lib.scoring.similar, SeedScored(m, lib) + HopScored(m, lib)) ==> s in HopSurvivors(m, lib)
  {
    hide SeedScored, HopScored, Deduped;
  }

  lemma HopIsEmbedded(m: Material, scoring: Scoring, s: Scored)
    requires CanShowHop(m, scoring, s)
    ensures Embedded(s)
  {
    hide FirstAmong, SeedIds, EntityIds;
  }

  lemma SurvivesOrRepeatsBehind(similar: Similar, seeds: seq<Scored>, hops: seq<Scored>, s: Scored)
    requires BestFirst(hops) && s in hops && Embedded(s)
    ensures || s in Deduped(similar, seeds + hops)
            || (exists k :: k in seeds && Duplicates(similar, s, k))
            || (exists k :: k in hops && k.similarity >= s.similarity && Duplicates(similar, s, k))
  {
    var all := seeds + hops;
    var at := DroppedRepeatEarlier(similar, all);
    hide Deduped, Duplicates, Embedded;
    var i :| 0 <= i < |hops| && hops[i] == s;
    var n: nat := |seeds| + i;
    assert all[n] == s;
    if n in at {
      var k :| 0 <= k < |at| && at[k] == n;
      assert Deduped(similar, all)[k] == s;
    } else {
      var j :| j in at && j < n && Duplicates(similar, all[n], all[j]);
      if j < |seeds| {
        assert all[j] in seeds;
      } else {
        assert all[j] == hops[j - |seeds|] && all[j] in hops;
      }
    }
  }

  lemma RankedPrefix(kept: seq<Scored>, n: nat, s: Scored)
    requires BestFirst(kept) && n <= |kept|
    ensures s in kept ==> s in kept[..n] || forall t :: t in kept[..n] ==> t.similarity >= s.similarity
  {
    if s in kept {
      var i :| 0 <= i < |kept| && kept[i] == s;
      if i < n {
        assert kept[..n][i] == s;
      } else {
        forall t | t in kept[..n] ensures t.similarity >= s.similarity {
          var j :| 0 <= j < n && kept[..n][j] == t;
          assert kept[j] == t;
        }
      }
    }
  }

  lemma ShownHopsAre(hopMap: map<Id, nat>, kept: seq<Scored>, slot: seq<Shown>, s: Scored)
    requires slot == Image(ShowHop(hopMap), kept)
    ensures (forall t :: t in kept ==> t.similarity >= s.similarity) ==>
      forall t :: t in slot ==> t.similarity >= s.similarity
  {
    forall t | t in slot && forall k :: k in kept ==> k.similarity >= s.similarity
      ensures t.similarity >= s.similarity
    {
      var i :| 0 <= i < |slot| && slot[i] == t;
      assert kept[i] in kept;
    }
  }

  // ---- Chunks that score alike ----

  /** Some row links chunk a before any row links chunk b. */
  predicate LinkedFirst(links: seq<Link>, a: Id, b: Id) {
    exists k | 0 <= k < |links| :: links[k].chunk == a && forall l | 0 <= l <= k :: links[l].chunk != b
  }

  function PairFirst(links: seq<Link>): (Pair, Pair) -> bool {
    (a: Pair, b: Pair) => LinkedFirst(links, a.chunk.id, b.chunk.id)
  }

  function ScoredFirst(links: seq<Link>): (Scored, Scored) -> bool {
    (a: Scored, b: Scored) => LinkedFirst(links, a.chunk.id, b.chunk.id)
  }

  function IdFirst(links: seq<Link>): (Id, Id) -> bool { (a: Id, b: Id) => LinkedFirst(links, a, b) }

  /** Chunks are taken up in the order of their first rows. */
  lemma OrderIsFirstSeen(links: seq<Link>)
    ensures RunsBy(IdFirst(links), ChunkOrder(links))
  {
    var at := FirstsStandAt(LinkChunk, links);
    var order := ChunkOrder(links);
    hide FirstPerKey;
    forall i, j | 0 <= i < j < |order| ensures LinkedFirst(links, order[i], order[j]) {
      assert order[i] == links[at[i]].chunk && order[j] == links[at[j]].chunk && at[i] < at[j];
      assert at[j] in at && IsFirst(LinkChunk, links, at[j]);
      forall l | 0 <= l <= at[i] ensures links[l].chunk != order[j] {
        assert LinkChunk(links[l]) != LinkChunk(links[at[j]]);
      }
    }
  }

  lemma {:induction false} SeedPairsRun(links: seq<Link>, chunks: map<Id, Chunk>, seeds: set<Id>, order: seq<Id>)
    requires FetchedChunks(chunks) && RunsBy(IdFirst(links), order)
    ensures RunsBy(PairFirst(links), SeedPairs(links, chunks, seeds, order))
    ensures forall p :: p in SeedPairs(links, chunks, seeds, order) ==> p.chunk.id in order
  {
    if order == [] {
    } else {
      var n := |order| - 1;
      var id := order[n];
      assert order == order[..n] + [id];
      SeedPairsRun(links, chunks, seeds, order[..n]);
      var front, pair := SeedPairs(links, chunks, seeds, order[..n]), SeedPair(links, chunks, seeds, id);
      assert pair == [] || (|pair| == 1 && pair == [pair[0]] && pair[0].chunk.id == id);
      hide SeedPair, LinkedFirst;
      if pair == [] {
        assert front + pair == front;
      } else {
        forall p | p in front ensures PairFirst(links)(p, pair[0]) {
          var i :| 0 <= i < n && order[i] == p.chunk.id;
          assert IdFirst(links)(order[i], order[n]);
        }
        RunsNext(PairFirst(links), front, pair[0]);
      }
    }
  }

  lemma {:induction false} HopPairsRun(links: seq<Link>, chunks: map<Id, Chunk>, seeds: set<Id>, order: seq<Id>)
    requires FetchedChunks(chunks) && RunsBy(IdFirst(links), order)
    ensures RunsBy(PairFirst(links), HopPairs(links, chunks, seeds, order))
    ensures forall p :: p in HopPairs(links, chunks, seeds, order) ==> p.chunk.id in order
  {
    if order == [] {
    } else {
      var n := |order| - 1;
      var id := order[n];
      assert order == order[..n] + [id];
      HopPairsRun(links, chunks, seeds, order[..n]);
      var front, pair := HopPairs(links, chunks, seeds, order[..n]), HopPair(links, chunks, seeds, id);
      assert pair == [] || (|pair| == 1 && pair == [pair[0]] && pair[0].chunk.id == id);
      hide HopPair, LinkedFirst;
      if pair == [] {
        assert front + pair == front;
      } else {
        forall p | p in front ensures PairFirst(links)(p, pair[0]) {
          var i :| 0 <= i < n && order[i] == p.chunk.id;
          assert IdFirst(links)(order[i], order[n]);
        }
        RunsNext(PairFirst(links), front, pair[0]);
      }
    }
  }

  lemma NothingCompared(links: seq<Link>, scoring: Scoring)
    ensures Compared(scoring, []) == [] && RunsBy(ScoredFirst(links), [])
  {
  }

  lemma ComparedNext(scoring: Scoring, pairs: seq<Pair>, p: Pair) returns (more: seq<Scored>)
    ensures Compared(scoring, pairs + [p]) == Compared(scoring, pairs) + more
    ensures more == [] || (more == [more[0]] && more[0].chunk.id == p.chunk.id)
  {
    assert (pairs + [p])[..|pairs|] == pairs;
    more := Compared(scoring, pairs + [p])[|Compared(scoring, pairs)|..];
  }

  lemma FirstForPairs(links: seq<Link>, p: Pair, q: Pair, s: Scored, t: Scored)
    requires PairFirst(links)(p, q) && s.chunk.id == p.chunk.id && t.chunk.id == q.chunk.id
    ensures ScoredFirst(links)(s, t)
  {
    hide LinkedFirst;
  }

  lemma {:induction false} ComparedRun(links: seq<Link>, scoring: Scoring, pairs: seq<Pair>)
    requires RunsBy(PairFirst(links), pairs)
    ensures RunsBy(ScoredFirst(links), Compared(scoring, pairs))
    ensures forall s :: s in Compared(scoring, pairs) ==> exists p :: p in pairs && p.chunk.id == s.chunk.id
  {
    hide *;
    NothingCompared(links, scoring);
    if pairs == [] {
    } else {
      var n := |pairs| - 1;
      var q := pairs[n];
      assert pairs == pairs[..n] + [q];
      RunsFront(PairFirst(links), pairs[..n], [q]);
      ComparedRun(links, scoring, pairs[..n]);
      var front := Compared(scoring, pairs[..n]);
      var more := ComparedNext(scoring, pairs[..n], q);
      if more == [] {
        assert front + more == front;
      } else {
        forall s | s in front ensures ScoredFirst(links)(s, more[0]) {
          var p :| p in pairs[..n] && p.chunk.id == s.chunk.id;
          RunsLast(PairFirst(links), pairs[..n], p, q);
          FirstForPairs(links, p, q, s, more[0]);
        }
        RunsNext(ScoredFirst(links), front, more[0]);
      }
      assert forall p :: p in pairs[..n] ==> p in pairs;
    }
  }

  lemma TiesRun(links: seq<Link>, scoring: Scoring, pairs: seq<Pair>, i: nat, j: nat)
    requires RunsBy(PairFirst(links), pairs) && i < j < |ScoredPairs(scoring, pairs)|
    ensures var scored := ScoredPairs(scoring, pairs);
      scored[i].similarity == scored[j].similarity ==> LinkedFirst(links, scored[i].chunk.id, scored[j].chunk.id)
  {
    var scored := ScoredPairs(scoring, pairs);
    ComparedRun(links, scoring, pairs);
    ScoredAreRanked(scoring, pairs);
    hide ScoredPairs, Compared, LinkedFirst, RunsBy;
    if scored[i].similarity == scored[j].similarity {
      var p := HasSimilarity(scored[i].similarity);
      KeepRuns(ScoredFirst(links), p, Compared(scoring, pairs));
      assert Keep(p, scored) == Keep(p, Compared(scoring, pairs));
      RunsWithin(ScoredFirst(links), p, scored, i, j);
    }
  }

  /** Chunks of one similarity stand in the order of their first rows, and so they go through de-duplication. */
  lemma TiesByFirstRow(m: Material, lib: Library, i: nat, j: nat)
    requires FetchedChunks(m.chunks) && i < j
    ensures var seeds := SeedScored(m, lib);
      j < |seeds| && seeds[i].similarity == seeds[j].similarity ==>
        LinkedFirst(Rows(m), seeds[i].chunk.id, seeds[j].chunk.id)
    ensures var hops := HopScored(m, lib);
      j < |hops| && hops[i].similarity == hops[j].similarity ==>
        LinkedFirst(Rows(m), hops[i].chunk.id, hops[j].chunk.id)
  {
    hide *;
    SeedScoredIs(m, lib);
    HopScoredIs(m, lib);
    OrderIsFirstSeen(Rows(m));
    SeedPairsRun(Rows(m), m.chunks, SeedIds(m), ChunkOrder(Rows(m)));
    HopPairsRun(Rows(m), m.chunks, SeedIds(m), ChunkOrder(Rows(m)));
    if j < |SeedScored(m, lib)| {
      TiesRun(Rows(m), lib.scoring, SeedPairs(Rows(m), m.chunks, SeedIds(m), ChunkOrder(Rows(m))), i, j);
    }
    if j < |HopScored(m, lib)| {
      TiesRun(Rows(m), lib.scoring, HopPairs(Rows(m), m.chunks, SeedIds(m), ChunkOrder(Rows(m))), i, j);
    }
  }
}
