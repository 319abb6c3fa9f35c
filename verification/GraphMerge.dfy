/** Hard-merging one entity into another, statement by statement, inside an
    open transaction whose constraints are re-checked after every statement. */
module GraphMerge {
  import opened Sequences
  import opened GraphTables

  /** What an open transaction sees, and whether a statement of it has failed. */
  class GraphSession {
    var now: Tables
    var aborted: bool

    constructor (committed: Tables)
      ensures now == committed && !aborted
    {
      now, aborted := committed, false;
    }

    /** Run one statement: its effect is kept only if every constraint holds after it. */
    method Execute(after: Tables) returns (ok: bool)
      requires !aborted && Constraints(now)
      modifies this`now, this`aborted
      ensures ok == Constraints(after)
      ensures now == if ok then after else old(now)
      ensures aborted == !ok
    {
      ok := Constraints(after);
      if ok {
        now := after;
      } else {
        aborted := true;
      }
    }

    /** merge_entity: re-point every table, de-duplicate, log, delete the absorbed entity. */
    method MergeEntity(from: Id, into: Id, chunk: Option<Id>, job: Option<Id>, reason: string,
                       place: seq<Relation> -> seq<Relation>)
      returns (r: MergeResult)
      requires !aborted && Constraints(now) && IsPlacement(place)
      modifies this`now, this`aborted
      ensures Constraints(now)
      ensures r == MergeOutcome(old(now), MergeLog(from, into, chunk, job, reason))
      ensures aborted == r.DatabaseError?
      ensures r.SourceNotFound? || r.TargetNotFound? ==> now == old(now)
      ensures r.Merged? && from != into ==> Quotient(old(now), now, MergeLog(from, into, chunk, job, reason))
      ensures r.Merged? && from == into ==> Erased(old(now), now, MergeLog(from, into, chunk, job, reason))
    {
      if from !in now.entities {
        return SourceNotFound;
      }
      if into !in now.entities {
        return TargetNotFound;
      }
      ghost var before := now;
      var row := MergeLog(from, into, chunk, job, reason);
      RepointRelations(from, into, place);
      RepointLinks(from, into);
      RepointPages(from, into);
      var ok := RepointMentions(from, into);
      if !ok {
        return DatabaseError;
      }
      ghost var logged := now.(log := now.log + [row]);
      ok := Finish(row);
      if !ok {
        return DatabaseError;
      }
      if from != into {
        DeleteCascadesToNothing(before, now, logged, row);
      } else {
        DeleteErases(before, now, logged, row);
      }
      r := Merged;
    }

    method RepointRelations(from: Id, into: Id, place: seq<Relation> -> seq<Relation>)
      requires !aborted && Constraints(now) && from in now.entities && into in now.entities
      requires IsPlacement(place)
      modifies this`now, this`aborted
      ensures !aborted && Constraints(now)
      ensures now == old(now).(relations := now.relations)
      ensures Collapsed(old(now).relations, now.relations, from, into)
    {
      ghost var rows := now.relations;
      var moved := place(Image(SourceTo(from, into), now.relations));
      RelationUpdateOk(now, SourceTo(from, into), moved);
      var ok := Execute(now.(relations := moved));

      var movedAgain := place(Image(TargetTo(from, into), now.relations));
      RelationUpdateOk(now, TargetTo(from, into), movedAgain);
      ok := Execute(now.(relations := movedAgain));

      RelationsRedirected(rows, moved, movedAgain, from, into);
      RelationsCollapse(rows, movedAgain, from, into);
      FirstPerKeyKeepsDistinct(KeyOf, RelationId, movedAgain);
      FirstPerKeyKeys(KeyOf, movedAgain);
      ok := Execute(now.(relations := FirstPerKey(KeyOf, now.relations)));
    }

    method RepointLinks(from: Id, into: Id)
      requires !aborted && Constraints(now) && from in now.entities && into in now.entities
      modifies this`now, this`aborted
      ensures !aborted && Constraints(now)
      ensures now == old(now).(links := now.links)
      ensures from != into ==> Members(now.links) == (set l | l in old(now).links :: RedirectLink(from, into)(l))
      ensures from == into ==> Members(now.links) == (set l | l in old(now).links && l.entity != from)
    {
      ghost var links := now.links;
      KeepIsDistinct(NotShared(from, into, links), links);
      var ok := Execute(now.(links := LinksNotShared(from, into, now.links)));
      LinksRedirect(links, from, into);
      ok := Execute(now.(links := Image(RedirectLink(from, into), now.links)));
    }

    method RepointPages(from: Id, into: Id)
      requires !aborted && Constraints(now) && from in now.entities && into in now.entities
      modifies this`now, this`aborted
      ensures !aborted && Constraints(now)
      ensures now == old(now).(pages := now.pages)
      ensures Image(PageId, now.pages) == Image(PageId, old(now).pages)
      ensures from != into ==> now.pages == Image(PageAfter(from, into, old(now).pages), old(now).pages)
      ensures from == into ==> now.pages == Image(OwnerTo(from, None), old(now).pages)
    {
      ghost var pages := now.pages;
      OwnerUpdateOk(now, from, None);
      var ok := Execute(now.(pages := OrphanIfTaken(from, into, now.pages)));
      OwnerUpdateOk(now, from, Some(into));
      assert HasPage(into, now.pages) && from != into ==> !HasPage(from, now.pages);
      ok := Execute(now.(pages := Image(OwnerTo(from, Some(into)), now.pages)));
      PagesRepointed(pages, from, into);
    }

    method RepointMentions(from: Id, into: Id) returns (ok: bool)
      requires !aborted && Constraints(now) && from in now.entities && into in now.entities
      modifies this`now, this`aborted
      ensures Constraints(now) && aborted == !ok
      ensures ok <==> from == into || !MentionedTogether(old(now), from, into)
      ensures ok ==> now == old(now).(mentions := Image(RedirectMention(from, into), old(now).mentions))
      ensures !ok ==> now == old(now)
    {
      MentionUpdateOk(now, from, into);
      ok := Execute(now.(mentions := Image(RedirectMention(from, into), now.mentions)));
    }

    /** De-duplicate mentions, write the audit row, delete the absorbed entity. */
    method Finish(row: MergeLog) returns (ok: bool)
      requires !aborted && Constraints(now) && row.mergedFrom in now.entities && row.mergedInto in now.entities
      modifies this`now, this`aborted
      ensures Constraints(now) && aborted == !ok
      ensures ok <==> Refers(row.chunk, old(now).chunks) && Refers(row.job, old(now).jobs)
      ensures ok ==> now == DeleteEntity(old(now).(log := old(now).log + [row]), row.mergedFrom)
    {
      assert Image(MentionKey, now.mentions) == now.mentions;
      FirstPerKeyOfDistinct(MentionKey, now.mentions);
      ok := Execute(now.(mentions := FirstPerKey(MentionKey, now.mentions)));
      LogInsertOk(now, row);
      ok := Execute(now.(log := now.log + [row]));
      if ok {
        DeleteOk(now, row.mergedFrom);
        ok := Execute(DeleteEntity(now, row.mergedFrom));
      }
    }
  }

  /** By the time of the final DELETE nothing refers to the absorbed entity. */
  lemma DeleteCascadesToNothing(t: Tables, t': Tables, logged: Tables, row: MergeLog)
    requires Constraints(t) && row.mergedFrom in t.entities && row.mergedInto in t.entities
    requires row.mergedFrom != row.mergedInto
    requires Collapsed(t.relations, logged.relations, row.mergedFrom, row.mergedInto)
    requires Members(logged.links) == set l | l in t.links :: RedirectLink(row.mergedFrom, row.mergedInto)(l)
    requires logged == t.(relations := logged.relations, links := logged.links, log := t.log + [row],
                          pages := Image(PageAfter(row.mergedFrom, row.mergedInto, t.pages), t.pages),
                          mentions := Image(RedirectMention(row.mergedFrom, row.mergedInto), t.mentions))
    requires t' == DeleteEntity(logged, row.mergedFrom)
    ensures t' == logged.(entities := t.entities - {row.mergedFrom})
    ensures Quotient(t, t', row)
  {
    var e, into := row.mergedFrom, row.mergedInto;
    RelationsLeave(t.relations, logged.relations, e, into);
    LinksLeave(t.links, logged.links, e, into);
    MentionsLeave(t.mentions, e, into);
    assert Image(OwnerTo(e, None), logged.pages) == logged.pages;
    EntitiesRedirect(t.entities, e, into);
    assert t'.relations == logged.relations && t'.links == logged.links && t'.pages == logged.pages;
    assert Members(t'.links) == Members(logged.links);
  }

  lemma EntitiesRedirect(entities: set<Id>, from: Id, into: Id)
    requires from != into && from in entities && into in entities
    ensures (set e | e in entities :: Redirect(from, into, e)) == entities - {from}
  {
    var image := set e | e in entities :: Redirect(from, into, e);
    forall e | e in entities - {from} ensures e in image {
      assert Redirect(from, into, e) == e;
    }
    forall e | e in image ensures e in entities - {from} {
    }
  }

  lemma RelationsLeave(before: seq<Relation>, after: seq<Relation>, from: Id, into: Id)
    requires from != into && Collapsed(before, after, from, into)
    ensures Keep(Untouched(from), after) == after
  {
    KeepAll(Untouched(from), after);
  }

  lemma LinksLeave(before: seq<ChunkLink>, after: seq<ChunkLink>, from: Id, into: Id)
    requires from != into && Members(after) == set l | l in before :: RedirectLink(from, into)(l)
    ensures Keep(LinkElsewhere(from), after) == after
  {
    assert forall l | l in after :: l in Members(after);
    KeepAll(LinkElsewhere(from), after);
  }

  lemma MentionsLeave(mentions: seq<Mention>, from: Id, into: Id)
    requires from != into
    ensures var after := Image(RedirectMention(from, into), mentions);
      Keep(MentionElsewhere(from), after) == after
  {
    KeepAll(MentionElsewhere(from), Image(RedirectMention(from, into), mentions));
  }

  lemma DeleteErases(t: Tables, t': Tables, logged: Tables, row: MergeLog)
    requires Constraints(t) && row.mergedFrom == row.mergedInto && row.mergedFrom in t.entities
    requires Collapsed(t.relations, logged.relations, row.mergedFrom, row.mergedInto)
    requires Members(logged.links) == set l | l in t.links && l.entity != row.mergedFrom
    requires logged == t.(relations := logged.relations, links := logged.links, log := t.log + [row],
                          pages := Image(OwnerTo(row.mergedFrom, None), t.pages),
                          mentions := Image(RedirectMention(row.mergedFrom, row.mergedInto), t.mentions))
    requires t' == DeleteEntity(logged, row.mergedFrom)
    ensures Erased(t, t', row)
  {
    var e := row.mergedFrom;
    assert logged.mentions == t.mentions;
    assert forall k: RelationKey :: RedirectKey(e, e, k) == k;
    assert Keys(logged.relations) == Keys(t.relations);
    forall k ensures k in Keys(t'.relations) <==> k in Keys(t.relations) && k.source != e && k.target != e {
      if k in Keys(logged.relations) && k.source != e && k.target != e {
        var r :| r in logged.relations && KeyOf(r) == k;
        assert r in t'.relations;
      }
    }
    assert t'.links == Keep(LinkElsewhere(e), logged.links);
    assert forall l :: l in t'.links <==> l in Members(logged.links);
    assert t'.pages == Image(OwnerTo(e, None), t.pages);
  }

  /** A successful merge identifies the two entities exactly when they differ:
      nothing in merge_entity guards against merging an entity into itself. */
  lemma QuotientExactlyWhenDistinct(t: Tables, t': Tables, row: MergeLog)
    requires MergeOutcome(t, row).Merged?
    requires row.mergedFrom != row.mergedInto ==> Quotient(t, t', row)
    requires row.mergedFrom == row.mergedInto ==> Erased(t, t', row)
    ensures Quotient(t, t', row) <==> row.mergedFrom != row.mergedInto
    ensures row.mergedInto in t'.entities <==> row.mergedFrom != row.mergedInto
  {
    if row.mergedFrom == row.mergedInto {
      var e := row.mergedFrom;
      assert Redirect(e, e, e) in set f | f in t.entities :: Redirect(e, e, f);
    } else {
      EntitiesRedirect(t.entities, row.mergedFrom, row.mergedInto);
    }
  }

  // ---- Why each statement meets, or breaks, the constraints ----

  lemma RelationUpdateOk(t: Tables, f: Relation -> Relation, moved: seq<Relation>)
    requires Constraints(t) && Permutation(Image(f, t.relations), moved)
    requires forall r | r in t.relations ::
      f(r).id == r.id && f(r).chunk == r.chunk && f(r).source in t.entities && f(r).target in t.entities
    ensures Constraints(t.(relations := moved))
  {
    var image := Image(f, t.relations);
    assert Image(RelationId, image) == Image(RelationId, t.relations);
    PermutationKeepsDistinct(RelationId, image, moved);
    PermutationMembers(image, moved);
    forall r | r in moved ensures r.source in t.entities && r.target in t.entities && r.chunk in t.chunks {
      var i :| 0 <= i < |image| && image[i] == r;
      assert t.relations[i] in t.relations;
    }
  }

  lemma LinksRedirect(links: seq<ChunkLink>, from: Id, into: Id)
    requires Distinct(links)
    ensures var after := Image(RedirectLink(from, into), LinksNotShared(from, into, links));
      && Distinct(after)
      && (from != into ==> Members(after) == set l | l in links :: RedirectLink(from, into)(l))
      && (from == into ==> Members(after) == set l | l in links && l.entity != from)
  {
    var kept := LinksNotShared(from, into, links);
    var f := RedirectLink(from, into);
    var after := Image(f, kept);
    KeepIsDistinct(NotShared(from, into, links), links);
    forall i, j | 0 <= i < j < |kept| ensures after[i] != after[j] {
      assert kept[i] != kept[j] && kept[i] in kept && kept[j] in kept;
    }
    forall l | l in after ensures exists l0 :: l0 in links && l == f(l0) && (from == into ==> l0.entity != from) {
      var i :| 0 <= i < |kept| && after[i] == l;
      assert kept[i] in kept;
    }
    forall l | l in links && (from == into ==> l.entity != from) ensures f(l) in after {
      var l0 := if l.entity == from && ChunkLink(l.chunk, into) in links then ChunkLink(l.chunk, into) else l;
      assert l0 in kept;
      var i :| 0 <= i < |kept| && kept[i] == l0;
      assert after[i] == f(l);
    }
  }

  /** Changing the owner of from's page is fine when no other page has the new owner. */
  lemma OwnerUpdateOk(t: Tables, from: Id, owner: Option<Id>)
    requires Constraints(t) && Refers(owner, t.entities)
    ensures Image(PageId, Image(OwnerTo(from, owner), t.pages)) == Image(PageId, t.pages)
    ensures owner == None || owner == Some(from) || !HasPage(owner.value, t.pages) || !HasPage(from, t.pages)
      ==> Constraints(t.(pages := Image(OwnerTo(from, owner), t.pages)))
  {
    var after := Image(OwnerTo(from, owner), t.pages);
    assert Image(PageId, after) == Image(PageId, t.pages);
    assert Image(PageSlug, after) == Image(PageSlug, t.pages);
    if owner == None || owner == Some(from) || !HasPage(owner.value, t.pages) || !HasPage(from, t.pages) {
      forall i, j | 0 <= i < j < |after| && after[i].entity.Some? ensures after[i].entity != after[j].entity {
        assert t.pages[i] in t.pages && t.pages[j] in t.pages;
      }
    }
  }

  lemma PagesRepointed(pages: seq<Page>, from: Id, into: Id)
    ensures var after := Image(OwnerTo(from, Some(into)), OrphanIfTaken(from, into, pages));
      && (from != into ==> after == Image(PageAfter(from, into, pages), pages))
      && (from == into ==> after == Image(OwnerTo(from, None), pages))
  {
    var after := Image(OwnerTo(from, Some(into)), OrphanIfTaken(from, into, pages));
    if from == into {
      var orphaned := Image(OwnerTo(from, None), pages);
      forall i | 0 <= i < |pages| ensures after[i] == orphaned[i] {
        assert pages[i] in pages;
      }
    } else {
      assert after == Image(PageAfter(from, into, pages), pages);
    }
  }

  /** The composite primary key lets the mention UPDATE through unless one page mentions both. */
  lemma MentionUpdateOk(t: Tables, from: Id, into: Id)
    requires Constraints(t) && into in t.entities
    ensures Constraints(t.(mentions := Image(RedirectMention(from, into), t.mentions)))
      <==> from == into || !MentionedTogether(t, from, into)
  {
    var ms := t.mentions;
    var after := Image(RedirectMention(from, into), ms);
    if from != into && MentionedTogether(t, from, into) {
      var m :| m in ms && m.entity == from && Mention(m.page, into) in ms;
      var i :| 0 <= i < |ms| && ms[i] == m;
      var j :| 0 <= j < |ms| && ms[j] == Mention(m.page, into);
      assert after[i] == after[j];
    } else {
      forall i, j | 0 <= i < j < |ms| ensures after[i] != after[j] {
        assert ms[i] in ms && ms[j] in ms;
      }
    }
  }

  lemma LogInsertOk(t: Tables, row: MergeLog)
    requires Constraints(t)
    ensures Constraints(t.(log := t.log + [row])) <==> Refers(row.chunk, t.chunks) && Refers(row.job, t.jobs)
  {
    assert row in t.log + [row];
  }

  lemma DeleteOk(t: Tables, e: Id)
    requires Constraints(t)
    ensures Constraints(DeleteEntity(t, e))
  {
    var after := DeleteEntity(t, e);
    KeepKeepsDistinct(Untouched(e), RelationId, t.relations);
    KeepIsDistinct(LinkElsewhere(e), t.links);
    KeepIsDistinct(MentionElsewhere(e), t.mentions);
    OwnerUpdateOk(t, e, None);
  }
}
