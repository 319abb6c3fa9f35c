/** What a merge of two entities leaves in every table, row by row, and which
    rows the schema refuses. */
module MergedTables {
  import opened Sequences
  import opened GraphTables
  import opened GraphMerge

  /** When merge_entity succeeds and how it fails, in the order in which it finds out. */
  lemma OutcomeExactly(t: Tables, row: MergeLog)
    ensures MergeOutcome(t, row).SourceNotFound? <==> row.mergedFrom !in t.entities
    ensures MergeOutcome(t, row).TargetNotFound? <==> row.mergedFrom in t.entities && row.mergedInto !in t.entities
    ensures MergeOutcome(t, row).Merged? <==>
      && row.mergedFrom in t.entities && row.mergedInto in t.entities
      && (row.mergedFrom != row.mergedInto ==>
            forall page :: !(
              && Mention(page, row.mergedFrom) in t.mentions
              && Mention(page, row.mergedInto) in t.mentions))
      && (row.chunk.Some? ==> row.chunk.value in t.chunks) && (row.job.Some? ==> row.job.value in t.jobs)
  {
    if MentionedTogether(t, row.mergedFrom, row.mergedInto) {
      var m :| m in t.mentions && m.entity == row.mergedFrom && Mention(m.page, row.mergedInto) in t.mentions;
      assert m == Mention(m.page, row.mergedFrom);
    }
    if page :| Mention(page, row.mergedFrom) in t.mentions && Mention(page, row.mergedInto) in t.mentions {
      assert MentionedTogether(t, row.mergedFrom, row.mergedInto);
    }
  }

  /** Entities, links, log and the tables a merge does not touch. */
  lemma MergedRows(t: Tables, t': Tables, row: MergeLog)
    requires Quotient(t, t', row) && row.mergedFrom != row.mergedInto
    requires row.mergedFrom in t.entities && row.mergedInto in t.entities
    ensures t'.entities == t.entities - {row.mergedFrom}
    ensures forall chunk, e :: ChunkLink(chunk, e) in t'.links <==>
      && e != row.mergedFrom
      && (ChunkLink(chunk, e) in t.links || (e == row.mergedInto && ChunkLink(chunk, row.mergedFrom) in t.links))
    ensures t'.log == t.log + [row] && t'.chunks == t.chunks && t'.jobs == t.jobs
    ensures |t'.mentions| == |t.mentions| && forall i :: 0 <= i < |t.mentions| ==>
      && t'.mentions[i].page == t.mentions[i].page
      && t'.mentions[i].entity
         == if t.mentions[i].entity == row.mergedFrom then row.mergedInto else t.mentions[i].entity
  {
    EntitiesRedirect(t.entities, row.mergedFrom, row.mergedInto);
    hide Collapsed;
    forall chunk, e
      ensures ChunkLink(chunk, e) in t'.links <==>
        && e != row.mergedFrom
        && (ChunkLink(chunk, e) in t.links || (e == row.mergedInto && ChunkLink(chunk, row.mergedFrom) in t.links))
    {
      assert ChunkLink(chunk, e) in t'.links <==> ChunkLink(chunk, e) in Members(t'.links);
      if ChunkLink(chunk, e) in t.links && e != row.mergedFrom {
        assert RedirectLink(row.mergedFrom, row.mergedInto)(ChunkLink(chunk, e)) == ChunkLink(chunk, e);
      }
      if ChunkLink(chunk, row.mergedFrom) in t.links && e == row.mergedInto {
        assert RedirectLink(row.mergedFrom, row.mergedInto)(ChunkLink(chunk, row.mergedFrom)) == ChunkLink(chunk, e);
      }
    }
  }

  /** Pages keep their place, slug and text; the absorbed entity's page passes to the other entity, or to nobody when
      that one has a page already; no other page changes hands. */
  lemma MergedPages(t: Tables, t': Tables, row: MergeLog, i: nat)
    requires Quotient(t, t', row) && i < |t.pages|
    ensures |t'.pages| == |t.pages|
    ensures t'.pages[i] == t.pages[i].(entity := t'.pages[i].entity)
    ensures t.pages[i].entity != Some(row.mergedFrom) ==> t'.pages[i].entity == t.pages[i].entity
    ensures t.pages[i].entity == Some(row.mergedFrom) ==>
      var taken := exists p :: p in t.pages && p.entity == Some(row.mergedInto);
      t'.pages[i].entity == if taken then None else Some(row.mergedInto)
  {
    hide Collapsed;
  }

  /** b has the ends of a with the absorbed entity renamed, and a's kind and chunk. */
  predicate Answers(row: MergeLog, a: Relation, b: Relation) {
    && b.source == (if a.source == row.mergedFrom then row.mergedInto else a.source)
    && b.target == (if a.target == row.mergedFrom then row.mergedInto else a.target)
    && b.kind == a.kind && b.chunk == a.chunk
  }

  /** Every relation left is a row of before with its ends renamed and nothing else changed. */
  lemma RelationsCome(t: Tables, t': Tables, row: MergeLog, b: Relation) returns (a: Relation)
    requires Quotient(t, t', row) && b in t'.relations
    ensures a in t.relations && Answers(row, a, b) && b.id == a.id && b.tag == a.tag
  {
    a :| a in t.relations && b == RedirectRelation(row.mergedFrom, row.mergedInto)(a);
  }

  /** Every row of before is answered by a relation left. */
  lemma RelationsAreAnswered(t: Tables, t': Tables, row: MergeLog, a: Relation) returns (b: Relation)
    requires Quotient(t, t', row) && a in t.relations
    ensures b in t'.relations && Answers(row, a, b)
  {
    var key := RedirectKey(row.mergedFrom, row.mergedInto, KeyOf(a));
    assert KeyOf(a) in Keys(t.relations) && key in Keys(t'.relations);
    b :| b in t'.relations && KeyOf(b) == key;
  }

  /** No two relations left agree in both ends, kind and chunk. */
  lemma RelationsAreApart(t: Tables, t': Tables, row: MergeLog, i: nat, j: nat)
    requires Quotient(t, t', row) && i < j < |t'.relations|
    ensures var a, b := t'.relations[i], t'.relations[j];
      a.source != b.source || a.target != b.target || a.kind != b.kind || a.chunk != b.chunk
  {
    assert Collapsed(t.relations, t'.relations, row.mergedFrom, row.mergedInto);
    assert Image(KeyOf, t'.relations)[i] != Image(KeyOf, t'.relations)[j];
  }

  /** Merging an entity into itself: it is gone with every row that names it, its page stays without an owner. */
  lemma ErasedRows(t: Tables, t': Tables, row: MergeLog)
    requires Erased(t, t', row)
    ensures t'.entities == t.entities - {row.mergedFrom}
    ensures forall l :: l in t'.links <==> l in t.links && l.entity != row.mergedFrom
    ensures forall m :: m in t'.mentions <==> m in t.mentions && m.entity != row.mergedFrom
    ensures |t'.pages| == |t.pages| && forall i :: 0 <= i < |t.pages| ==>
      t'.pages[i] == t.pages[i].(entity := if t.pages[i].entity == Some(row.mergedFrom) then None
                                           else t.pages[i].entity)
    ensures t'.log == t.log + [row] && t'.chunks == t.chunks && t'.jobs == t.jobs
  {
    assert forall l :: l in t'.links <==> l in Members(t'.links);
    assert forall m :: m in t'.mentions <==> m in Members(t'.mentions);
  }

  predicate Says(r: Relation, source: Id, target: Id, kind: string, chunk: Id) {
    r.source == source && r.target == target && r.kind == kind && r.chunk == chunk
  }

  /** And the relations left say what those said that named it at neither end. */
  lemma ErasedRelations(t: Tables, t': Tables, row: MergeLog, source: Id, target: Id, kind: string, chunk: Id)
    requires Erased(t, t', row)
    ensures (exists b :: b in t'.relations && Says(b, source, target, kind, chunk)) <==>
      && source != row.mergedFrom && target != row.mergedFrom
      && exists a :: a in t.relations && Says(a, source, target, kind, chunk)
  {
    var key := RelationKey(source, target, kind, chunk);
    KeyIsThere(t'.relations, key);
    KeyIsThere(t.relations, key);
    hide Keys, Says;
  }

  lemma KeyIsThere(rows: seq<Relation>, key: RelationKey)
    ensures key in Keys(rows) <==> exists a :: a in rows && Says(a, key.source, key.target, key.kind, key.chunk)
  {
    if key in Keys(rows) {
      var a :| a in rows && KeyOf(a) == key;
      assert Says(a, key.source, key.target, key.kind, key.chunk);
    }
    if a :| a in rows && Says(a, key.source, key.target, key.kind, key.chunk) {
      assert KeyOf(a) == key;
    }
  }

  // ---- What the schema refuses ----

  /** No two relations of one id, no link or mention twice, no two pages of one id, slug or entity. */
  predicate NoRepeats(t: Tables) {
    && (forall i, j :: 0 <= i < j < |t.relations| ==> t.relations[i].id != t.relations[j].id)
    && (forall i, j :: 0 <= i < j < |t.links| ==> t.links[i] != t.links[j])
    && (forall i, j :: 0 <= i < j < |t.mentions| ==> t.mentions[i] != t.mentions[j])
    && (forall i, j :: 0 <= i < j < |t.pages| ==> t.pages[i].id != t.pages[j].id && t.pages[i].slug != t.pages[j].slug)
    && (forall i, j :: 0 <= i < j < |t.pages| ==> t.pages[i].entity == None || t.pages[i].entity != t.pages[j].entity)
  }

  predicate IsPage(t: Tables, id: Id) { exists i :: 0 <= i < |t.pages| && t.pages[i].id == id }

  /** Whatever a row refers to is there; pages and log rows may refer to nothing. */
  predicate NothingDangles(t: Tables) {
    && (forall r :: r in t.relations ==> r.source in t.entities && r.target in t.entities && r.chunk in t.chunks)
    && (forall l :: l in t.links ==> l.chunk in t.chunks && l.entity in t.entities)
    && (forall p :: p in t.pages && p.entity.Some? ==> p.entity.value in t.entities)
    && (forall m :: m in t.mentions ==> m.entity in t.entities && IsPage(t, m.page))
    && (forall row :: row in t.log ==> row.chunk.Some? ==> row.chunk.value in t.chunks)
    && (forall row :: row in t.log ==> row.job.Some? ==> row.job.value in t.jobs)
  }

  /** The schema accepts exactly the tables without repeats and dangling references. */
  lemma ConstraintsExactly(t: Tables)
    ensures Constraints(t) <==> NoRepeats(t) && NothingDangles(t)
  {
    IdsDiffer(t);
    PagesThere(t);
    hide Distinct, Image, IsPage;
  }

  lemma IdsDiffer(t: Tables)
    ensures Distinct(Image(RelationId, t.relations))
       <==> forall i, j :: 0 <= i < j < |t.relations| ==> t.relations[i].id != t.relations[j].id
    ensures Distinct(t.links) <==> forall i, j :: 0 <= i < j < |t.links| ==> t.links[i] != t.links[j]
    ensures Distinct(t.mentions) <==> forall i, j :: 0 <= i < j < |t.mentions| ==> t.mentions[i] != t.mentions[j]
    ensures Distinct(Image(PageId, t.pages)) && Distinct(Image(PageSlug, t.pages))
       <==> forall i, j :: 0 <= i < j < |t.pages| ==>
              t.pages[i].id != t.pages[j].id && t.pages[i].slug != t.pages[j].slug
  {
    var ids, slugs := Image(PageId, t.pages), Image(PageSlug, t.pages);
    forall i, j | 0 <= i < j < |t.relations|
      ensures Image(RelationId, t.relations)[i] != Image(RelationId, t.relations)[j]
         <==> t.relations[i].id != t.relations[j].id
    {
    }
    forall i, j | 0 <= i < j < |t.pages|
      ensures ids[i] != ids[j] && slugs[i] != slugs[j]
         <==> t.pages[i].id != t.pages[j].id && t.pages[i].slug != t.pages[j].slug
    {
    }
  }

  lemma PagesThere(t: Tables)
    ensures forall id :: id in Image(PageId, t.pages) <==> IsPage(t, id)
  {
    var ids := Image(PageId, t.pages);
    forall id ensures id in ids <==> IsPage(t, id) {
      if id in ids {
        var i :| 0 <= i < |ids| && ids[i] == id;
        assert t.pages[i].id == id;
      }
      if IsPage(t, id) {
        var i :| 0 <= i < |t.pages| && t.pages[i].id == id;
        assert ids[i] == id;
      }
    }
  }
}
