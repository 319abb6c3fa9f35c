/** Which linked chunks a retrieval considers, for which entity each is
    shown, and how they are scored against the query. */
module ChunkPairs {
  import opened Sequences
  import opened StableSorting
  import opened Deduplication

  datatype Link = Link(chunk: Id, entity: Id)
  datatype Pair = Pair(chunk: Chunk, entity: Id)

  function LinkChunk(l: Link): Id { l.chunk }
  function LinkEntity(l: Link): Id { l.entity }
  function PairId(p: Pair): Id { p.chunk.id }

  function IsLinkOf(chunk: Id): Link -> bool { (l: Link) => l.chunk == chunk }
  function IsIn(ids: set<Id>): Id -> bool { (id: Id) => id in ids }

  /** The linked chunks, in the order the rows first name them. */
  function ChunkOrder(links: seq<Link>): seq<Id> { Image(LinkChunk, FirstPerKey(LinkChunk, links)) }

  function EntitiesOf(links: seq<Link>, chunk: Id): seq<Id> { Image(LinkEntity, Keep(IsLinkOf(chunk), links)) }

  function LinkedSeeds(links: seq<Link>, seeds: set<Id>, chunk: Id): seq<Id> {
    Keep(IsIn(seeds), EntitiesOf(links, chunk))
  }

  function SeedPair(links: seq<Link>, chunks: map<Id, Chunk>, seeds: set<Id>, chunk: Id): seq<Pair> {
    var linked := LinkedSeeds(links, seeds, chunk);
    if chunk in chunks && linked != [] then [Pair(chunks[chunk], linked[0])] else []
  }

  function HopPair(links: seq<Link>, chunks: map<Id, Chunk>, seeds: set<Id>, chunk: Id): seq<Pair> {
    var entities := EntitiesOf(links, chunk);
    if chunk !in chunks || LinkedSeeds(links, seeds, chunk) != [] || entities == [] then []
    else [Pair(chunks[chunk], entities[0])]
  }

  function SeedPairs(links: seq<Link>, chunks: map<Id, Chunk>, seeds: set<Id>, order: seq<Id>): seq<Pair> {
    if order == [] then []
    else SeedPairs(links, chunks, seeds, order[..|order| - 1]) + SeedPair(links, chunks, seeds, order[|order| - 1])
  }

  function HopPairs(links: seq<Link>, chunks: map<Id, Chunk>, seeds: set<Id>, order: seq<Id>): seq<Pair> {
    if order == [] then []
    else HopPairs(links, chunks, seeds, order[..|order| - 1]) + HopPair(links, chunks, seeds, order[|order| - 1])
  }

  /** The two dictionary loops of assemble_context. */
  method PairChunks(links: seq<Link>, chunks: map<Id, Chunk>, seeds: set<Id>)
    returns (seedPairs: seq<Pair>, hopPairs: seq<Pair>)
    ensures seedPairs == SeedPairs(links, chunks, seeds, ChunkOrder(links))
    ensures hopPairs == HopPairs(links, chunks, seeds, ChunkOrder(links))
  {
    var order, groups := GroupLinks(links);
    hide SeedPairs, HopPairs, EntitiesOf, ChunkOrder;
    assert SeedPairs(links, chunks, seeds, []) == [] && HopPairs(links, chunks, seeds, []) == [] by {
      NoPairs(links, chunks, seeds);
    }
    seedPairs, hopPairs := [], [];
    var i := 0;
    while i < |order|
      invariant 0 <= i <= |order|
      invariant seedPairs == SeedPairs(links, chunks, seeds, order[..i])
      invariant hopPairs == HopPairs(links, chunks, seeds, order[..i])
    {
      var id := order[i];
      assert order[..i + 1] == order[..i] + [id] && id in order;
      PairsAppend(links, chunks, seeds, order[..i], id);
      if id in chunks {
        var linked := Keep(IsIn(seeds), groups[id]);
        if linked != [] {
          seedPairs := seedPairs + [Pair(chunks[id], linked[0])];
        } else {
          hopPairs := hopPairs + [Pair(chunks[id], groups[id][0])];
        }
      }
      i := i + 1;
    }
    assert order[..i] == order;
  }

  lemma NoPairs(links: seq<Link>, chunks: map<Id, Chunk>, seeds: set<Id>)
    ensures SeedPairs(links, chunks, seeds, []) == [] && HopPairs(links, chunks, seeds, []) == []
  {
  }

  lemma PairsAppend(links: seq<Link>, chunks: map<Id, Chunk>, seeds: set<Id>, order: seq<Id>, id: Id)
    ensures SeedPairs(links, chunks, seeds, order + [id])
      == SeedPairs(links, chunks, seeds, order) + SeedPair(links, chunks, seeds, id)
    ensures HopPairs(links, chunks, seeds, order + [id])
      == HopPairs(links, chunks, seeds, order) + HopPair(links, chunks, seeds, id)
  {
    assert (order + [id])[..|order|] == order;
  }

  /** An insertion-ordered dictionary from chunk to entities. */
  method GroupLinks(links: seq<Link>) returns (order: seq<Id>, groups: map<Id, seq<Id>>)
    ensures order == ChunkOrder(links)
    ensures forall id :: id in groups <==> id in order
    ensures forall id :: id in groups ==> groups[id] != [] && groups[id] == EntitiesOf(links, id)
  {
    order, groups := [], map[];
    var i := 0;
    while i < |links|
      invariant 0 <= i <= |links|
      invariant order == ChunkOrder(links[..i])
      invariant forall id :: id in groups <==> id in order
      invariant forall id :: id in groups ==> groups[id] != [] && groups[id] == EntitiesOf(links[..i], id)
    {
      var l, front := links[i], links[..i];
      assert links[..i + 1] == front + [l];
      assert (front + [l])[..i] == front;
      FirstPerKeyKeys(LinkChunk, front);
      ImageAppend(LinkChunk, FirstPerKey(LinkChunk, front), l);
      NextLink(front, l);
      if l.chunk !in groups {
        NoEarlierLink(front, l.chunk);
        order := order + [l.chunk];
        groups := groups[l.chunk := [l.entity]];
      } else {
        groups := groups[l.chunk := groups[l.chunk] + [l.entity]];
      }
      i := i + 1;
    }
    assert links[..i] == links;
  }

  lemma NextLink(front: seq<Link>, l: Link)
    ensures forall id :: EntitiesOf(front + [l], id) == EntitiesOf(front, id) + if id == l.chunk then [l.entity] else []
  {
    forall id ensures EntitiesOf(front + [l], id) == EntitiesOf(front, id) + if id == l.chunk then [l.entity] else [] {
      KeepAppend(IsLinkOf(id), front, l);
      ImageAppend(LinkEntity, Keep(IsLinkOf(id), front), l);
    }
  }

  lemma NoEarlierLink(links: seq<Link>, chunk: Id)
    requires chunk !in ChunkOrder(links)
    ensures EntitiesOf(links, chunk) == []
  {
    FirstPerKeyKeys(LinkChunk, links);
    forall l | l in links ensures l.chunk != chunk {
      var i :| 0 <= i < |links| && links[i] == l;
      assert Image(LinkChunk, links)[i] == l.chunk;
    }
    KeepNone(IsLinkOf(chunk), links);
  }

  // ---- Every linked chunk is on one side ----

  ghost predicate LinkedTo(links: seq<Link>, chunk: Id, entity: Id) { Link(chunk, entity) in links }

  lemma EntitiesAreLinked(links: seq<Link>, chunk: Id)
    ensures forall e :: e in EntitiesOf(links, chunk) <==> LinkedTo(links, chunk, e)
  {
    var linked := Keep(IsLinkOf(chunk), links);
    forall e ensures e in EntitiesOf(links, chunk) <==> LinkedTo(links, chunk, e) {
      if e in EntitiesOf(links, chunk) {
        var i :| 0 <= i < |linked| && EntitiesOf(links, chunk)[i] == e;
        assert linked[i] in links && linked[i] == Link(chunk, e);
      }
      if LinkedTo(links, chunk, e) {
        assert Link(chunk, e) in linked;
        var i :| 0 <= i < |linked| && linked[i] == Link(chunk, e);
        assert EntitiesOf(links, chunk)[i] == e;
      }
    }
  }

  ghost predicate FetchedChunks(chunks: map<Id, Chunk>) { forall id :: id in chunks ==> chunks[id].id == id }

  /** A seed pair shows a chunk for a seed it is linked to. */
  lemma {:induction false} SeedPairsAreLinked(links: seq<Link>, chunks: map<Id, Chunk>, seeds: set<Id>, order: seq<Id>)
    requires FetchedChunks(chunks)
    ensures forall p :: p in SeedPairs(links, chunks, seeds, order) ==>
      p.entity in seeds && LinkedTo(links, p.chunk.id, p.entity)
  {
    if order == [] {
    } else {
      var n := |order| - 1;
      SeedPairsAreLinked(links, chunks, seeds, order[..n]);
      EntitiesAreLinked(links, order[n]);
      var linked := LinkedSeeds(links, seeds, order[n]);
      assert linked != [] ==> linked[0] in linked;
      hide LinkedSeeds;
    }
  }

  /** A hop pair shows a chunk for an entity it is linked to. */
  lemma {:induction false} HopPairsAreLinked(links: seq<Link>, chunks: map<Id, Chunk>, seeds: set<Id>, order: seq<Id>)
    requires FetchedChunks(chunks)
    ensures forall p :: p in HopPairs(links, chunks, seeds, order) ==> LinkedTo(links, p.chunk.id, p.entity)
  {
    if order == [] {
    } else {
      var n := |order| - 1;
      HopPairsAreLinked(links, chunks, seeds, order[..n]);
      EntitiesAreLinked(links, order[n]);
      var entities := EntitiesOf(links, order[n]);
      assert entities != [] ==> entities[0] in entities;
      hide LinkedSeeds;
    }
  }

  ghost predicate SeedLinked(links: seq<Link>, seeds: set<Id>, id: Id) {
    exists e :: e in seeds && LinkedTo(links, id, e)
  }

  ghost predicate Linked(links: seq<Link>, id: Id) { exists e :: LinkedTo(links, id, e) }

  /** The seed pairs are the fetched chunks some seed is linked to, each once. */
  lemma {:induction false} SeedPairsExactly(links: seq<Link>, chunks: map<Id, Chunk>, seeds: set<Id>, order: seq<Id>)
    requires FetchedChunks(chunks) && Distinct(order)
    ensures Distinct(Image(PairId, SeedPairs(links, chunks, seeds, order)))
    ensures forall id :: id in Image(PairId, SeedPairs(links, chunks, seeds, order)) <==>
      id in order && id in chunks && SeedLinked(links, seeds, id)
  {
    if order == [] {
    } else {
      var n := |order| - 1;
      var id, front := order[n], order[..n];
      assert order == front + [id];
      SeedPairsExactly(links, chunks, seeds, front);
      SeedPairExactly(links, chunks, seeds, id);
      ImageConcat(PairId, SeedPairs(links, chunks, seeds, front), SeedPair(links, chunks, seeds, id));
      hide SeedPair, SeedLinked;
    }
  }

  /** The hop pairs are the other fetched chunks with a link, each once. */
  lemma {:induction false} HopPairsExactly(links: seq<Link>, chunks: map<Id, Chunk>, seeds: set<Id>, order: seq<Id>)
    requires FetchedChunks(chunks) && Distinct(order)
    ensures Distinct(Image(PairId, HopPairs(links, chunks, seeds, order)))
    ensures forall id :: id in Image(PairId, HopPairs(links, chunks, seeds, order)) <==>
      id in order && id in chunks && Linked(links, id) && !SeedLinked(links, seeds, id)
  {
    if order == [] {
    } else {
      var n := |order| - 1;
      var id, front := order[n], order[..n];
      assert order == front + [id];
      HopPairsExactly(links, chunks, seeds, front);
      HopPairExactly(links, chunks, seeds, id);
      ImageConcat(PairId, HopPairs(links, chunks, seeds, front), HopPair(links, chunks, seeds, id));
      hide HopPair, Linked, SeedLinked;
    }
  }

  lemma LinkedExactly(links: seq<Link>, seeds: set<Id>, id: Id)
    ensures LinkedSeeds(links, seeds, id) != [] <==> SeedLinked(links, seeds, id)
    ensures EntitiesOf(links, id) != [] <==> Linked(links, id)
  {
    EntitiesAreLinked(links, id);
    var linked, entities := LinkedSeeds(links, seeds, id), EntitiesOf(links, id);
    assert forall e :: e in linked <==> e in seeds && LinkedTo(links, id, e);
    assert linked != [] ==> linked[0] in linked;
    assert entities != [] ==> entities[0] in entities;
  }

  lemma SeedPairExactly(links: seq<Link>, chunks: map<Id, Chunk>, seeds: set<Id>, id: Id)
    requires FetchedChunks(chunks)
    ensures Image(PairId, SeedPair(links, chunks, seeds, id))
      == if id in chunks && SeedLinked(links, seeds, id) then [id] else []
  {
    LinkedExactly(links, seeds, id);
    hide LinkedSeeds, SeedLinked;
  }

  lemma HopPairExactly(links: seq<Link>, chunks: map<Id, Chunk>, seeds: set<Id>, id: Id)
    requires FetchedChunks(chunks)
    ensures Image(PairId, HopPair(links, chunks, seeds, id))
      == if id in chunks && Linked(links, id) && !SeedLinked(links, seeds, id) then [id] else []
  {
    LinkedExactly(links, seeds, id);
    hide LinkedSeeds, SeedLinked, EntitiesOf, Linked;
  }

  // ---- Scoring ----

  /** What a retrieval takes from outside: chunk embeddings, cosine order and the de-duplication threshold. */
  datatype Scoring = Scoring(query: Vector, embed: string -> Vector, cosine: (Vector, Vector) -> int, similar: Similar)

  /** A chunk without embedding but with text is embedded on the fly. */
  function WithEmbedding(scoring: Scoring): Pair -> Pair {
    (p: Pair) =>
      if p.chunk.embedding.None? && p.chunk.text != "" then
        p.(chunk := p.chunk.(embedding := Some(scoring.embed(p.chunk.text))))
      else p
  }

  function Comparable(scoring: Scoring): Pair -> bool {
    (p: Pair) => p.chunk.embedding.Some? && |p.chunk.embedding.value| == |scoring.query|
  }

  function ScoreOf(scoring: Scoring): Pair -> Scored {
    (p: Pair) =>
      Scored(if p.chunk.embedding.Some? then scoring.cosine(scoring.query, p.chunk.embedding.value) else 0,
             p.chunk, p.entity)
  }

  function Descending(s: Scored): Rank { (-s.similarity, 0) }

  function Unsorted(scoring: Scoring, pairs: seq<Pair>): seq<Scored> {
    Image(ScoreOf(scoring), Keep(Comparable(scoring), Image(WithEmbedding(scoring), pairs)))
  }

  function ScoredPairs(scoring: Scoring, pairs: seq<Pair>): seq<Scored> {
    StableSort(Descending, Unsorted(scoring, pairs))
  }

  /** The pairs that can be compared with the query, each with the cosine of its embedding, taken from the chunk
      or from its text. */
  function Compared(scoring: Scoring, pairs: seq<Pair>): seq<Scored> {
    if pairs == [] then []
    else
      var p := pairs[|pairs| - 1];
      var front := Compared(scoring, pairs[..|pairs| - 1]);
      match p.chunk.embedding
      case Some(v) =>
        if |v| == |scoring.query| then front + [Scored(scoring.cosine(scoring.query, v), p.chunk, p.entity)] else front
      case None =>
        var v := scoring.embed(p.chunk.text);
        if p.chunk.text != "" && |v| == |scoring.query|
        then front + [Scored(scoring.cosine(scoring.query, v), p.chunk.(embedding := Some(v)), p.entity)]
        else front
  }

  lemma {:induction false} ComparedAreUnsorted(scoring: Scoring, pairs: seq<Pair>)
    ensures Unsorted(scoring, pairs) == Compared(scoring, pairs)
  {
    if pairs == [] {
    } else {
      var n := |pairs| - 1;
      var front, p := Image(WithEmbedding(scoring), pairs[..n]), WithEmbedding(scoring)(pairs[n]);
      assert pairs == pairs[..n] + [pairs[n]];
      ComparedAreUnsorted(scoring, pairs[..n]);
      ImageAppend(WithEmbedding(scoring), pairs[..n], pairs[n]);
      KeepAppend(Comparable(scoring), front, p);
      ImageAppend(ScoreOf(scoring), Keep(Comparable(scoring), front), p);
      hide Keep, Image;
    }
  }

  /** More similar first. */
  ghost predicate BestFirst(scored: seq<Scored>) {
    forall i, j :: 0 <= i < j < |scored| ==> scored[i].similarity >= scored[j].similarity
  }

  function HasSimilarity(similarity: int): Scored -> bool { (s: Scored) => s.similarity == similarity }

  /** Scoring ranks the comparable pairs by similarity; ties keep the order of the pairs. */
  lemma ScoredAreRanked(scoring: Scoring, pairs: seq<Pair>)
    ensures BestFirst(ScoredPairs(scoring, pairs))
    ensures Permutation(Compared(scoring, pairs), ScoredPairs(scoring, pairs))
    ensures forall v :: Keep(HasSimilarity(v), ScoredPairs(scoring, pairs))
                     == Keep(HasSimilarity(v), Compared(scoring, pairs))
  {
    var unsorted, scored := Unsorted(scoring, pairs), ScoredPairs(scoring, pairs);
    ComparedAreUnsorted(scoring, pairs);
    StableSortSorts(Descending, unsorted);
    hide Unsorted, Compared, StableSort, Keep;
    forall i, j | 0 <= i < j < |scored| ensures scored[i].similarity >= scored[j].similarity {
      assert !Less(Descending(scored[j]), Descending(scored[i]));
    }
    forall v ensures Keep(HasSimilarity(v), scored) == Keep(HasSimilarity(v), unsorted) {
      StableSortIsStable(Descending, unsorted, (-v, 0));
      forall s ensures HasRank(Descending, (-v, 0))(s) == HasSimilarity(v)(s) {
        SameSimilarity(v, s);
      }
      SameKept(HasRank(Descending, (-v, 0)), HasSimilarity(v), scored);
      SameKept(HasRank(Descending, (-v, 0)), HasSimilarity(v), unsorted);
    }
  }

  lemma SameSimilarity(v: int, s: Scored)
    ensures HasRank(Descending, (-v, 0))(s) == HasSimilarity(v)(s)
  {
    assert Descending(s) == (-v, 0) <==> s.similarity == v;
  }

  /** _score_chunk_pairs */
  method ScoreChunkPairs(scoring: Scoring, pairs: seq<Pair>) returns (scored: seq<Scored>)
    ensures scored == ScoredPairs(scoring, pairs)
    ensures forall i, j :: 0 <= i < j < |scored| ==> scored[i].similarity >= scored[j].similarity
    ensures Permutation(Compared(scoring, pairs), scored)
    ensures forall v :: Keep(HasSimilarity(v), scored) == Keep(HasSimilarity(v), Compared(scoring, pairs))
  {
    hide ScoredPairs, Unsorted, Compared, Keep, StableSort, WithEmbedding, ScoreOf, HasSimilarity;
    ScoredAreRanked(scoring, pairs);
    NothingToScore(scoring);
    scored := [];
    var i := 0;
    while i < |pairs|
      invariant 0 <= i <= |pairs| && scored == Unsorted(scoring, pairs[..i])
    {
      var p := WithEmbedding(scoring)(pairs[i]);
      assert pairs[..i + 1] == pairs[..i] + [pairs[i]];
      UnsortedNext(scoring, pairs[..i], pairs[i]);
      if p.chunk.embedding.Some? && |p.chunk.embedding.value| == |scoring.query| {
        scored := scored + [ScoreOf(scoring)(p)];
      }
      i := i + 1;
    }
    assert pairs[..i] == pairs;
    SortedAreScored(scoring, pairs);
    scored := StableSort(Descending, scored);
  }

  lemma NothingToScore(scoring: Scoring)
    ensures Unsorted(scoring, []) == []
  {
  }

  lemma SortedAreScored(scoring: Scoring, pairs: seq<Pair>)
    ensures ScoredPairs(scoring, pairs) == StableSort(Descending, Unsorted(scoring, pairs))
  {
  }

  lemma UnsortedNext(scoring: Scoring, front: seq<Pair>, pair: Pair)
    ensures var p := WithEmbedding(scoring)(pair);
      && (p.chunk.embedding.Some? && |p.chunk.embedding.value| == |scoring.query| ==>
            Unsorted(scoring, front + [pair]) == Unsorted(scoring, front) + [ScoreOf(scoring)(p)])
      && (p.chunk.embedding.None? || |p.chunk.embedding.value| != |scoring.query| ==>
            Unsorted(scoring, front + [pair]) == Unsorted(scoring, front))
  {
    var p := WithEmbedding(scoring)(pair);
    ImageAppend(WithEmbedding(scoring), front, pair);
    KeepAppend(Comparable(scoring), Image(WithEmbedding(scoring), front), p);
    ImageAppend(ScoreOf(scoring), Keep(Comparable(scoring), Image(WithEmbedding(scoring), front)), p);
    hide Keep, Image;
    var kept := Keep(Comparable(scoring), Image(WithEmbedding(scoring), front));
    assert kept + [] == kept;
  }

  /** Scoring keeps chunks distinct and adds none. */
  lemma ScoringKeepsChunks(scoring: Scoring, pairs: seq<Pair>)
    requires Distinct(Image(PairId, pairs))
    ensures Distinct(Image(ChunkId, ScoredPairs(scoring, pairs)))
    ensures forall id :: id in Image(ChunkId, ScoredPairs(scoring, pairs)) ==> id in Image(PairId, pairs)
  {
    var embedded := Image(WithEmbedding(scoring), pairs);
    assert Image(PairId, embedded) == Image(PairId, pairs);
    KeepKeepsDistinct(Comparable(scoring), PairId, embedded);
    var unsorted := Unsorted(scoring, pairs);
    assert Image(ChunkId, unsorted) == Image(PairId, Keep(Comparable(scoring), embedded));
    StableSortSorts(Descending, unsorted);
    PermutationKeepsDistinct(ChunkId, unsorted, ScoredPairs(scoring, pairs));
    PermutationOfImages(ChunkId, unsorted, ScoredPairs(scoring, pairs));
    PermutationMembers(Image(ChunkId, unsorted), Image(ChunkId, ScoredPairs(scoring, pairs)));
  }

  /** The scored seed and hop lists together hold each chunk at most once. */
  lemma ScoredSidesAreDistinct(scoring: Scoring, links: seq<Link>, chunks: map<Id, Chunk>, seeds: set<Id>)
    requires FetchedChunks(chunks)
    ensures Distinct(Image(ChunkId,
      ScoredPairs(scoring, SeedPairs(links, chunks, seeds, ChunkOrder(links)))
        + ScoredPairs(scoring, HopPairs(links, chunks, seeds, ChunkOrder(links)))))
  {
    var order := ChunkOrder(links);
    FirstPerKeyKeys(LinkChunk, links);
    SeedPairsExactly(links, chunks, seeds, order);
    HopPairsExactly(links, chunks, seeds, order);
    var seedPairs, hopPairs := SeedPairs(links, chunks, seeds, order), HopPairs(links, chunks, seeds, order);
    ScoringKeepsChunks(scoring, seedPairs);
    ScoringKeepsChunks(scoring, hopPairs);
    var a, b := ScoredPairs(scoring, seedPairs), ScoredPairs(scoring, hopPairs);
    assert forall id :: !(id in Image(PairId, seedPairs) && id in Image(PairId, hopPairs));
    hide *;
    ImageConcat(ChunkId, a, b);
    DistinctConcat(Image(ChunkId, a), Image(ChunkId, b));
  }

  lemma DistinctConcat<A(!new)>(a: seq<A>, b: seq<A>)
    requires Distinct(a) && Distinct(b) && forall x :: !(x in a && x in b)
    ensures Distinct(a + b)
  {
    forall i, j | 0 <= i < j < |a + b| ensures (a + b)[i] != (a + b)[j] {
      if i < |a| <= j {
        assert (a + b)[i] in a && (a + b)[j] in b;
      }
    }
  }
}
