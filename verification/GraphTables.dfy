/** The five tables an entity merge rewrites, their key and foreign-key
    constraints, and the SQL statements of the merge as table functions.
    Row order is the physical (ctid) order. */
module GraphTables {
  import opened Sequences

  type Id = nat

  datatype Relation = Relation(id: Id, source: Id, target: Id, kind: string, chunk: Id, tag: string)
  datatype ChunkLink = ChunkLink(chunk: Id, entity: Id)
  datatype Page = Page(id: Id, entity: Option<Id>, slug: string, content: string)
  datatype Mention = Mention(page: Id, entity: Id)
  datatype MergeLog = MergeLog(mergedFrom: Id, mergedInto: Id, chunk: Option<Id>, job: Option<Id>, reason: string)

  datatype Tables = Tables(
    entities: set<Id>,
    relations: seq<Relation>,
    links: seq<ChunkLink>,
    pages: seq<Page>,
    mentions: seq<Mention>,
    log: seq<MergeLog>,
    chunks: set<Id>,
    jobs: set<Id>)

  datatype RelationKey = RelationKey(source: Id, target: Id, kind: string, chunk: Id)

  function KeyOf(r: Relation): RelationKey { RelationKey(r.source, r.target, r.kind, r.chunk) }
  function RelationId(r: Relation): Id { r.id }
  function PageId(p: Page): Id { p.id }
  function PageSlug(p: Page): string { p.slug }
  function MentionKey(m: Mention): Mention { m }

  function Keys(rows: seq<Relation>): set<RelationKey> { set r | r in rows :: KeyOf(r) }

  // ---- Constraints of the schema ----

  predicate Refers(reference: Option<Id>, ids: set<Id>) { reference.Some? ==> reference.value in ids }

  predicate RelationsOk(t: Tables) {
    && Distinct(Image(RelationId, t.relations))
    && forall r | r in t.relations :: r.source in t.entities && r.target in t.entities && r.chunk in t.chunks
  }

  predicate LinksOk(t: Tables) {
    && Distinct(t.links)
    && forall l | l in t.links :: l.chunk in t.chunks && l.entity in t.entities
  }

  /** At most one page per entity; pages without an entity do not collide. */
  predicate OnePagePerEntity(pages: seq<Page>) {
    forall i, j :: 0 <= i < j < |pages| && pages[i].entity.Some? ==> pages[i].entity != pages[j].entity
  }

  predicate PagesOk(t: Tables) {
    && Distinct(Image(PageId, t.pages))
    && Distinct(Image(PageSlug, t.pages))
    && OnePagePerEntity(t.pages)
    && forall p | p in t.pages :: Refers(p.entity, t.entities)
  }

  predicate MentionsOk(t: Tables) {
    && Distinct(t.mentions)
    && forall m | m in t.mentions :: m.page in Image(PageId, t.pages) && m.entity in t.entities
  }

  predicate LogOk(t: Tables) {
    forall row | row in t.log :: Refers(row.chunk, t.chunks) && Refers(row.job, t.jobs)
  }

  /** Every primary key, unique constraint and foreign key of the five tables. */
  predicate Constraints(t: Tables) {
    RelationsOk(t) && LinksOk(t) && PagesOk(t) && MentionsOk(t) && LogOk(t)
  }

  // ---- The substitution a merge performs ----

  function Redirect(from: Id, into: Id, e: Id): Id { if e == from then into else e }

  function RedirectKey(from: Id, into: Id, k: RelationKey): RelationKey {
    k.(source := Redirect(from, into, k.source), target := Redirect(from, into, k.target))
  }

  function RedirectRelation(from: Id, into: Id): Relation -> Relation {
    (r: Relation) => r.(source := Redirect(from, into, r.source), target := Redirect(from, into, r.target))
  }

  function RedirectLink(from: Id, into: Id): ChunkLink -> ChunkLink {
    (l: ChunkLink) => l.(entity := Redirect(from, into, l.entity))
  }

  function RedirectMention(from: Id, into: Id): Mention -> Mention {
    (m: Mention) => m.(entity := Redirect(from, into, m.entity))
  }

  // ---- The statements of a merge, one per SQL statement ----

  function SourceTo(from: Id, into: Id): Relation -> Relation {
    (r: Relation) => if r.source == from then r.(source := into) else r
  }

  function TargetTo(from: Id, into: Id): Relation -> Relation {
    (r: Relation) => if r.target == from then r.(target := into) else r
  }

  function NotShared(from: Id, into: Id, links: seq<ChunkLink>): ChunkLink -> bool {
    (l: ChunkLink) => !(l.entity == from && ChunkLink(l.chunk, into) in links)
  }

  function LinksNotShared(from: Id, into: Id, links: seq<ChunkLink>): seq<ChunkLink> {
    Keep(NotShared(from, into, links), links)
  }

  predicate HasPage(e: Id, pages: seq<Page>) { exists p | p in pages :: p.entity == Some(e) }

  function OwnerTo(from: Id, owner: Option<Id>): Page -> Page {
    (p: Page) => if p.entity == Some(from) then p.(entity := owner) else p
  }

  function OrphanIfTaken(from: Id, into: Id, pages: seq<Page>): seq<Page> {
    if HasPage(into, pages) then Image(OwnerTo(from, None), pages) else pages
  }

  function Untouched(e: Id): Relation -> bool { (r: Relation) => r.source != e && r.target != e }
  function LinkElsewhere(e: Id): ChunkLink -> bool { (l: ChunkLink) => l.entity != e }
  function MentionElsewhere(e: Id): Mention -> bool { (m: Mention) => m.entity != e }

  /** DELETE of an entity: its relations, links and mentions go with it, its page stays ownerless. */
  function DeleteEntity(t: Tables, e: Id): Tables {
    t.(entities := t.entities - {e},
       relations := Keep(Untouched(e), t.relations),
       links := Keep(LinkElsewhere(e), t.links),
       pages := Image(OwnerTo(e, None), t.pages),
       mentions := Keep(MentionElsewhere(e), t.mentions))
  }

  /** Where an UPDATE leaves the new row versions is up to the storage engine. */
  ghost predicate IsPlacement(place: seq<Relation> -> seq<Relation>) {
    forall rows :: Permutation(rows, place(rows))
  }

  // ---- What a merge means ----

  predicate MentionedTogether(t: Tables, e: Id, f: Id) {
    exists m | m in t.mentions :: m.entity == e && Mention(m.page, f) in t.mentions
  }

  /** The relations after a merge: every key redirected, one surviving row per key. */
  ghost predicate Collapsed(before: seq<Relation>, after: seq<Relation>, from: Id, into: Id) {
    && Keys(after) == (set k | k in Keys(before) :: RedirectKey(from, into, k))
    && Distinct(Image(KeyOf, after))
    && forall r | r in after :: exists r0 :: r0 in before && r == RedirectRelation(from, into)(r0)
  }

  function PageAfter(from: Id, into: Id, pages: seq<Page>): Page -> Page {
    OwnerTo(from, if HasPage(into, pages) then None else Some(into))
  }

  /** t' is t with from identified with into, and the merge logged. */
  ghost predicate Quotient(t: Tables, t': Tables, row: MergeLog) {
    var from, into := row.mergedFrom, row.mergedInto;
    && t'.entities == (set e | e in t.entities :: Redirect(from, into, e))
    && Collapsed(t.relations, t'.relations, from, into)
    && Members(t'.links) == (set l | l in t.links :: RedirectLink(from, into)(l))
    && t'.pages == Image(PageAfter(from, into, t.pages), t.pages)
    && t'.mentions == Image(RedirectMention(from, into), t.mentions)
    && t'.log == t.log + [row]
    && t'.chunks == t.chunks && t'.jobs == t.jobs
  }

  /** t' is t without entity e: the effect of merging an entity into itself. */
  ghost predicate Erased(t: Tables, t': Tables, row: MergeLog) {
    var e := row.mergedFrom;
    && t'.entities == t.entities - {e}
    && Keys(t'.relations) == (set k | k in Keys(t.relations) && k.source != e && k.target != e)
    && Members(t'.links) == (set l | l in t.links && l.entity != e)
    && t'.pages == Image(OwnerTo(e, None), t.pages)
    && Members(t'.mentions) == (set m | m in t.mentions && m.entity != e)
    && t'.log == t.log + [row]
    && t'.chunks == t.chunks && t'.jobs == t.jobs
  }

  datatype MergeResult = Merged | SourceNotFound | TargetNotFound | DatabaseError

  /** When a merge succeeds, and how it fails otherwise. */
  function MergeOutcome(t: Tables, row: MergeLog): MergeResult {
    if row.mergedFrom !in t.entities then SourceNotFound
    else if row.mergedInto !in t.entities then TargetNotFound
    else if row.mergedFrom != row.mergedInto && MentionedTogether(t, row.mergedFrom, row.mergedInto) then DatabaseError
    else if !Refers(row.chunk, t.chunks) || !Refers(row.job, t.jobs) then DatabaseError
    else Merged
  }

  // ---- Lemmas about single statements ----

  /** Both relation UPDATEs amount to one redirection of every row. */
  lemma RelationsRedirected(rows: seq<Relation>, placed: seq<Relation>, placedAgain: seq<Relation>, from: Id, into: Id)
    requires Permutation(Image(SourceTo(from, into), rows), placed)
    requires Permutation(Image(TargetTo(from, into), placed), placedAgain)
    ensures Permutation(Image(RedirectRelation(from, into), rows), placedAgain)
  {
    PermutationOfImages(TargetTo(from, into), Image(SourceTo(from, into), rows), placed);
    assert Image(TargetTo(from, into), Image(SourceTo(from, into), rows)) == Image(RedirectRelation(from, into), rows);
  }

  lemma RelationsCollapse(rows: seq<Relation>, moved: seq<Relation>, from: Id, into: Id)
    requires Permutation(Image(RedirectRelation(from, into), rows), moved)
    ensures Collapsed(rows, FirstPerKey(KeyOf, moved), from, into)
  {
    var redirected := Image(RedirectRelation(from, into), rows);
    var after := FirstPerKey(KeyOf, moved);
    PermutationMembers(redirected, moved);
    FirstPerKeyKeys(KeyOf, moved);
    forall r | r in after ensures exists r0 :: r0 in rows && r == RedirectRelation(from, into)(r0) {
      var i :| 0 <= i < |redirected| && redirected[i] == r;
      assert rows[i] in rows;
    }
    SameKeys(after, moved);
    forall k ensures k in Keys(moved) <==> exists k0 :: k0 in Keys(rows) && k == RedirectKey(from, into, k0) {
      if k in Keys(moved) {
        var r :| r in moved && KeyOf(r) == k;
        var i :| 0 <= i < |redirected| && redirected[i] == r;
        assert KeyOf(rows[i]) in Keys(rows) && k == RedirectKey(from, into, KeyOf(rows[i]));
      }
      if k0 :| k0 in Keys(rows) && k == RedirectKey(from, into, k0) {
        var i :| 0 <= i < |rows| && KeyOf(rows[i]) == k0;
        assert redirected[i] in moved;
      }
    }
  }

  lemma SameKeys(s: seq<Relation>, t: seq<Relation>)
    requires forall k :: k in Image(KeyOf, s) <==> k in Image(KeyOf, t)
    ensures Keys(s) == Keys(t)
  {
    forall rows: seq<Relation>, k ensures k in Keys(rows) <==> k in Image(KeyOf, rows) {
      if k in Image(KeyOf, rows) {
        var i :| 0 <= i < |rows| && Image(KeyOf, rows)[i] == k;
        assert rows[i] in rows;
      }
      if k in Keys(rows) {
        var i :| 0 <= i < |rows| && KeyOf(rows[i]) == k;
        assert Image(KeyOf, rows)[i] == k;
      }
    }
  }
}
