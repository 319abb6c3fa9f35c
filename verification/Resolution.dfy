/** Resolving the entities extracted from one chunk: lock, search, decide,
    create or merge, then link and relate. Search results and model answers
    are inputs; so are the fresh identifiers. */
module Resolution {
  import opened Sequences
  import opened GraphTables
  import opened GraphMerge
  import opened UnionFind

  datatype Decision =
    | NoMatches                           // the vector search found nothing
    | DecidedNew
    | DecidedMerge(target: Id, reason: string)
    | NoValidDecision                     // the model's call failed, or gave no tool call, bad JSON or a bad schema
    | NoEmbedding                         // the embedding call failed

  datatype Candidate = Candidate(name: string, granted: bool, decision: Decision, newId: Id)

  datatype Extracted = Extracted(sourceIdx: int, targetIdx: int, kind: string, newId: Id)

  datatype Outcome<+T> = Returned(value: T) | Raised

  predicate CreatesEntity(c: Candidate) { c.granted && (c.decision.NoMatches? || c.decision.DecidedNew?) }

  function EntityFor(c: Candidate): Id {
    if c.decision.DecidedMerge? then c.decision.target else c.newId
  }

  /** Identifiers are drawn fresh: unused in the tables, pairwise different, and no model named one. */
  ghost predicate FreshIds(t: Tables, candidates: seq<Candidate>, relations: seq<Extracted>) {
    && (forall c :: c in candidates ==> c.newId !in t.entities)
    && (forall c, d :: c in candidates && d in candidates && d.decision.DecidedMerge? ==> d.decision.target != c.newId)
    && (forall i, j :: 0 <= i < j < |candidates| ==> candidates[i].newId != candidates[j].newId)
    && (forall x, r :: x in relations && r in t.relations ==> x.newId != r.id)
    && (forall i, j :: 0 <= i < j < |relations| ==> relations[i].newId != relations[j].newId)
  }

  /** The entity one resolved candidate leaves behind, and the merges it logs. */
  ghost function NewEntity(c: Candidate): set<Id> {
    if CreatesEntity(c) then {c.newId} else {}
  }

  ghost function NewMerges(c: Candidate): nat {
    if c.decision.DecidedMerge? then 1 else 0
  }

  /** The entities created by the first n candidates, and what the candidates resolve to. */
  ghost function CreatedBy(candidates: seq<Candidate>, n: nat): set<Id>
    requires n <= |candidates|
  {
    set i | 0 <= i < n && CreatesEntity(candidates[i]) :: candidates[i].newId
  }

  ghost predicate ResolvedTo(candidates: seq<Candidate>, n: nat, resolved: map<nat, Id>)
    requires n <= |candidates|
  {
    && (forall i: nat :: i in resolved <==> i < n && candidates[i].granted)
    && forall i: nat :: i in resolved ==> resolved[i] == EntityFor(candidates[i])
  }

  ghost function LinksTo(entities: set<Id>, chunk: Id): set<ChunkLink> {
    set e | e in entities :: ChunkLink(chunk, e)
  }

  ghost predicate RelationsResolve(relations: seq<Extracted>, resolved: map<nat, Id>) {
    forall x :: x in relations ==>
      0 <= x.sourceIdx && x.sourceIdx as nat in resolved && 0 <= x.targetIdx && x.targetIdx as nat in resolved
  }

  ghost function TranslatedKeys(relations: seq<Extracted>, resolved: map<nat, Id>, chunk: Id): set<RelationKey>
    requires RelationsResolve(relations, resolved)
  {
    set x | x in relations :: RelationKey(resolved[x.sourceIdx as nat], resolved[x.targetIdx as nat], x.kind, chunk)
  }

  // ---- What a resolution does, as events ----

  function LinkEvent(l: ChunkLink): Event { Linked(l) }
  function RowEvent(r: Relation): Event { Related(r) }

  /** Resolving a candidate creates an entity, and merges it away at once if the model says so. */
  function CandidateEvents(c: Candidate, chunk: Id, job: Option<Id>): seq<Event> {
    if !c.granted then []
    else if c.decision.DecidedMerge? then
      [Created(c.newId), MergedEntities(MergeLog(c.newId, c.decision.target, Some(chunk), job, c.decision.reason))]
    else [Created(c.newId)]
  }

  function ResolvingEvents(candidates: seq<Candidate>, n: nat, chunk: Id, job: Option<Id>): seq<Event>
    requires n <= |candidates|
  {
    if n == 0 then []
    else ResolvingEvents(candidates, n - 1, chunk, job) + CandidateEvents(candidates[n - 1], chunk, job)
  }

  /** The chunk links of the first n candidates, in order. */
  function DeferredLinks(candidates: seq<Candidate>, n: nat, chunk: Id): seq<ChunkLink>
    requires n <= |candidates|
  {
    if n == 0 then []
    else
      var c := candidates[n - 1];
      DeferredLinks(candidates, n - 1, chunk) + if c.granted then [ChunkLink(chunk, EntityFor(c))] else []
  }

  /** The rows inserted for the first n relations. */
  ghost function RelationRows(relations: seq<Extracted>, n: nat, resolved: map<nat, Id>, chunk: Id): seq<Relation>
    requires n <= |relations| && RelationsResolve(relations[..n], resolved)
  {
    if n == 0 then []
    else
      var x := relations[n - 1];
      assert relations[..n][n - 1] == x && forall y :: y in relations[..n - 1] ==> y in relations[..n];
      RelationRows(relations, n - 1, resolved, chunk)
      + [Relation(x.newId, resolved[x.sourceIdx as nat], resolved[x.targetIdx as nat], x.kind, chunk, "INFERRED")]
  }

  /** Candidates in order, then the links of the resolved ones, then the relations between them. */
  ghost function ResolutionEvents(candidates: seq<Candidate>, relations: seq<Extracted>, resolved: map<nat, Id>,
                                  chunk: Id, job: Option<Id>): seq<Event>
    requires RelationsResolve(relations, resolved)
  {
    assert relations[..|relations|] == relations;
    ResolvingEvents(candidates, |candidates|, chunk, job)
    + Image(LinkEvent, DeferredLinks(candidates, |candidates|, chunk))
    + Image(RowEvent, RelationRows(relations, |relations|, resolved, chunk))
  }

  /** The first n candidates can be resolved: embeddings arrive, decisions are valid,
      and every merge target is live by the time it is merged into. */
  ghost predicate CandidatesOk(t: Tables, candidates: seq<Candidate>, n: nat)
    requires n <= |candidates|
  {
    forall i :: 0 <= i < n ==> CandidateOk(t, candidates, i)
  }

  ghost predicate CandidateOk(t: Tables, candidates: seq<Candidate>, i: nat)
    requires i < |candidates|
  {
    var c := candidates[i];
    && !c.decision.NoEmbedding?
    && (c.granted ==> !c.decision.NoValidDecision?)
    && (c.granted && c.decision.DecidedMerge? ==> c.decision.target in t.entities + CreatedBy(candidates, i))
  }

  ghost predicate Granted(candidates: seq<Candidate>, i: int) { 0 <= i < |candidates| && candidates[i].granted }

  /** Exactly when resolve_entities returns normally. */
  ghost predicate Resolvable(t: Tables, candidates: seq<Candidate>, relations: seq<Extracted>) {
    && CandidatesOk(t, candidates, |candidates|)
    && forall x :: x in relations ==> Granted(candidates, x.sourceIdx) && Granted(candidates, x.targetIdx)
  }

  /** After i candidates, starting from tables t. */
  ghost predicate Progress(t: Tables, now: Tables, candidates: seq<Candidate>, i: nat,
                           resolved: map<nat, Id>, deferred: seq<ChunkLink>, chunk: Id)
    requires i <= |candidates|
  {
    var created := CreatedBy(candidates, i);
    && |created| <= |resolved|
    && SameGraph(t, now, created, |resolved| - |created|)
    && ResolvedTo(candidates, i, resolved)
    && CandidatesOk(t, candidates, i)
    && resolved.Values <= now.entities
    && Members(deferred) == LinksTo(resolved.Values, chunk)
  }

  class Resolver {
    const session: GraphSession
    /** Advisory locks this connection holds; taking one twice counts twice. */
    var locks: multiset<nat>

    constructor (session: GraphSession)
      ensures this.session == session && locks == multiset{}
    {
      this.session := session;
      locks := multiset{};
    }

    /** resolve_entities: resolve every candidate whose lock is granted, then link the
        resolved entities to the chunk and insert the relations between them. */
    method ResolveEntities(candidates: seq<Candidate>, lockKey: string -> nat, chunk: Id, job: Option<Id>,
                           relations: seq<Extracted>, place: seq<Relation> -> seq<Relation>)
      returns (r: Outcome<map<nat, Id>>)
      requires !session.aborted && Constraints(session.now) && IsPlacement(place)
      requires chunk in session.now.chunks && Refers(job, session.now.jobs)
      requires FreshIds(session.now, candidates, relations)
      modifies this, session`now, session`aborted
      ensures Constraints(session.now) && !session.aborted
      ensures locks == old(locks)
      ensures r.Returned? <==> Resolvable(old(session.now), candidates, relations)
      ensures r.Returned? ==> ResolvedTo(candidates, |candidates|, r.value) && RelationsResolve(relations, r.value)
      ensures r.Returned? ==> r.value.Values <= session.now.entities
      ensures r.Returned? ==> session.now.entities == old(session.now).entities + CreatedBy(candidates, |candidates|)
      ensures r.Returned? ==>
        |CreatedBy(candidates, |candidates|)| + |session.now.log| - |old(session.now).log| == |r.value|
      ensures r.Returned? ==>
        Members(session.now.links) == Members(old(session.now).links) + LinksTo(r.value.Values, chunk)
      ensures r.Returned? ==>
        Keys(session.now.relations) == Keys(old(session.now).relations) + TranslatedKeys(relations, r.value, chunk)
      ensures r.Returned? ==>
        session.now.pages == old(session.now).pages && session.now.mentions == old(session.now).mentions
      ensures r.Returned? ==>
        Becomes(old(session.now), ResolutionEvents(candidates, relations, r.value, chunk, job), session.now)
    {
      hide *;
      ghost var t := session.now;
      var found := ResolveCandidates(candidates, lockKey, chunk, job, relations, place);
      if found.Raised? {
        NotResolvable(t, candidates, relations);
        return Raised;
      }
      ResolvedFacts(t, session.now, candidates, found.value.0, found.value.1, chunk, relations);
      ResolvableIs(t, candidates, relations, found.value.0);
      ghost var u := session.now;
      InsertLinks(found.value.1, chunk);
      ghost var v := session.now;
      var ok := InsertRelations(relations, found.value.0, chunk);
      if ok {
        ResolutionBecomes(t, u, v, session.now, candidates, relations, found.value.0, chunk, job);
      }
      r := if ok then Returned(found.value.0) else Raised;
    }

    /** The loop over the candidates: the resolved indices and the deferred chunk links. */
    method ResolveCandidates(candidates: seq<Candidate>, lockKey: string -> nat, chunk: Id, job: Option<Id>,
                             ghost relations: seq<Extracted>, place: seq<Relation> -> seq<Relation>)
      returns (r: Outcome<(map<nat, Id>, seq<ChunkLink>)>)
      requires !session.aborted && Constraints(session.now) && IsPlacement(place)
      requires chunk in session.now.chunks && Refers(job, session.now.jobs)
      requires FreshIds(session.now, candidates, relations)
      modifies this, session`now, session`aborted
      ensures Constraints(session.now) && !session.aborted
      ensures locks == old(locks)
      ensures r.Returned? <==> CandidatesOk(old(session.now), candidates, |candidates|)
      ensures r.Returned? ==>
        Progress(old(session.now), session.now, candidates, |candidates|, r.value.0, r.value.1, chunk)
      ensures r.Returned? ==> r.value.1 == DeferredLinks(candidates, |candidates|, chunk)
      ensures r.Returned? ==>
        Becomes(old(session.now), ResolvingEvents(candidates, |candidates|, chunk, job), session.now)
    {
      hide *;
      ghost var t := session.now;
      var resolved: map<nat, Id> := map[];
      var deferred: seq<ChunkLink> := [];
      ProgressStarts(t, candidates, chunk);
      NothingDone(t, candidates, chunk, job);
      var i := 0;
      while i < |candidates|
        invariant 0 <= i <= |candidates|
        invariant Constraints(session.now) && !session.aborted && locks == old(locks)
        invariant Progress(t, session.now, candidates, i, resolved, deferred, chunk)
        invariant deferred == DeferredLinks(candidates, i, chunk)
        invariant Becomes(t, ResolvingEvents(candidates, i, chunk, job), session.now)
      {
        var c := candidates[i];
        ghost var u := session.now;
        ProgressFacts(t, u, candidates, relations, i, resolved, deferred, chunk);
        if c.granted || c.decision.NoEmbedding? {
          var one := ResolveOne(c, lockKey(c.name), chunk, job, place);
          if one.Raised? {
            NotAllOk(t, candidates, i);
            return Raised;
          }
          ProgressByOne(t, u, session.now, candidates, i, resolved, deferred, chunk);
          DoneByOne(t, u, session.now, candidates, i, chunk, job);
          resolved := resolved[i := one.value];
          deferred := deferred + [ChunkLink(chunk, one.value)];
        } else {
          ProgressBySkipping(t, u, candidates, i, resolved, deferred, chunk);
          DoneBySkipping(candidates, i, chunk, job);
        }
        i := i + 1;
      }
      ProgressFinishes(t, session.now, candidates, resolved, deferred, chunk);
      r := Returned((resolved, deferred));
    }

    /** INSERT ... ON CONFLICT DO NOTHING of the deferred chunk links. */
    method InsertLinks(deferred: seq<ChunkLink>, chunk: Id)
      requires !session.aborted && Constraints(session.now) && chunk in session.now.chunks
      requires forall l :: l in deferred ==> l.chunk == chunk && l.entity in session.now.entities
      modifies session`now, session`aborted
      ensures !session.aborted && Constraints(session.now)
      ensures session.now == old(session.now).(links := session.now.links)
      ensures Members(session.now.links) == Members(old(session.now).links) + Members(deferred)
      ensures Becomes(old(session.now), Image(LinkEvent, deferred), session.now)
    {
      LinksBecome(session.now, deferred);
      hide Becomes;
      if deferred != [] {
        LinksInsertOk(session.now, deferred);
        var _ := session.Execute(session.now.(links := FirstPerKey(LinkKey, session.now.links + deferred)));
      }
    }

    method InsertRelations(relations: seq<Extracted>, resolved: map<nat, Id>, chunk: Id) returns (ok: bool)
      requires !session.aborted && Constraints(session.now) && chunk in session.now.chunks
      requires resolved.Values <= session.now.entities
      requires forall x, r :: x in relations && r in session.now.relations ==> x.newId != r.id
      requires forall i, j :: 0 <= i < j < |relations| ==> relations[i].newId != relations[j].newId
      modifies session`now, session`aborted
      ensures !session.aborted && Constraints(session.now)
      ensures session.now == old(session.now).(relations := session.now.relations)
      ensures ok <==> RelationsResolve(relations, resolved)
      ensures ok ==>
        Keys(session.now.relations) == Keys(old(session.now).relations) + TranslatedKeys(relations, resolved, chunk)
      ensures ok ==>
        && relations[..|relations|] == relations
        && Becomes(old(session.now), Image(RowEvent, RelationRows(relations, |relations|, resolved, chunk)),
                   session.now)
    {
      hide Constraints, Keys, TranslatedKeys, Becomes, RelationRows, Image;
      ghost var t := session.now;
      NothingTranslated(t.relations, resolved, chunk);
      NoRows(t, relations, resolved, chunk);
      var i := 0;
      while i < |relations|
        invariant 0 <= i <= |relations|
        invariant Constraints(session.now) && !session.aborted
        invariant session.now == t.(relations := session.now.relations)
        invariant RelationsResolve(relations[..i], resolved)
        invariant Keys(session.now.relations) == Keys(t.relations) + TranslatedKeys(relations[..i], resolved, chunk)
        invariant forall j, r :: i <= j < |relations| && r in session.now.relations ==> relations[j].newId != r.id
        invariant Becomes(t, Image(RowEvent, RelationRows(relations, i, resolved, chunk)), session.now)
      {
        var x := relations[i];
        if x.sourceIdx < 0 || x.sourceIdx as nat !in resolved || x.targetIdx < 0 || x.targetIdx as nat !in resolved {
          assert x in relations;
          return false;
        }
        var source, target := resolved[x.sourceIdx as nat], resolved[x.targetIdx as nat];
        assert source in resolved.Values && target in resolved.Values;
        TranslatedGrow(relations, i, resolved, chunk);
        var row := Relation(x.newId, source, target, x.kind, chunk, "INFERRED");
        RelationInsertOk(session.now, row);
        KeysGrow(session.now.relations, row);
        RowsNext(relations, i, resolved, chunk);
        RowBecomes(t, session.now, relations, i, resolved, chunk, row);
        var _ := session.Execute(session.now.(relations := session.now.relations + [row]));
        i := i + 1;
      }
      assert relations[..i] == relations;
      ok := true;
    }

    /** The body of the candidate loop, with its lock taken and released around it. */
    method ResolveOne(c: Candidate, key: nat, chunk: Id, job: Option<Id>, place: seq<Relation> -> seq<Relation>)
      returns (r: Outcome<Id>)
      requires !session.aborted && Constraints(session.now) && IsPlacement(place)
      requires chunk in session.now.chunks && Refers(job, session.now.jobs)
      requires (c.granted || c.decision.NoEmbedding?) && c.newId !in session.now.entities
      requires c.decision.DecidedMerge? ==> c.decision.target != c.newId
      modifies this, session`now, session`aborted
      ensures Constraints(session.now) && !session.aborted
      ensures locks == old(locks)
      ensures r == (if c.decision.NoEmbedding? || c.decision.NoValidDecision? then Raised
                    else if c.decision.DecidedMerge? && c.decision.target !in old(session.now).entities then Raised
                    else Returned(EntityFor(c)))
      ensures r.Returned? ==> r.value in session.now.entities
      ensures r.Returned? ==> SameGraph(old(session.now), session.now, NewEntity(c), NewMerges(c))
      ensures r.Returned? ==> Becomes(old(session.now), CandidateEvents(c, chunk, job), session.now)
    {
      hide Becomes;
      if c.decision.NoEmbedding? {
        return Raised;
      }
      locks := locks + multiset{key};
      match c.decision {
        case NoEmbedding =>
        case NoValidDecision =>
          r := Raised;
        case NoMatches | DecidedNew =>
          InsertEntity(c.newId);
          r := Returned(c.newId);
        case DecidedMerge(target, reason) =>
          r := AbsorbInto(c.newId, target, chunk, job, reason, place);
      }
      locks := locks - multiset{key};
    }

    /** Create an entity only to merge it into the one the model named. */
    method AbsorbInto(e: Id, target: Id, chunk: Id, job: Option<Id>, reason: string,
                      place: seq<Relation> -> seq<Relation>)
      returns (r: Outcome<Id>)
      requires !session.aborted && Constraints(session.now) && IsPlacement(place)
      requires chunk in session.now.chunks && Refers(job, session.now.jobs)
      requires e !in session.now.entities && target != e
      modifies session`now, session`aborted
      ensures Constraints(session.now) && !session.aborted
      ensures r == if target in old(session.now).entities then Returned(target) else Raised
      ensures r.Returned? ==> SameGraph(old(session.now), session.now, {}, 1)
      ensures r.Returned? ==>
        Becomes(old(session.now), [Created(e), MergedEntities(MergeLog(e, target, Some(chunk), job, reason))],
                session.now)
    {
      hide Becomes;
      ghost var before := session.now;
      InsertEntity(e);
      ghost var created := session.now;
      FreshNotMentioned(before, e, target);
      var row := MergeLog(e, target, Some(chunk), job, reason);
      var merged := session.MergeEntity(e, target, Some(chunk), job, reason, place);
      if merged.Merged? {
        MergingFreshChangesNothing(before, session.now, row);
        MergeBecomes(created, row, session.now);
        BecomesConcat(before, [Created(e)], created, [MergedEntities(row)], session.now);
        assert [Created(e)] + [MergedEntities(row)] == [Created(e), MergedEntities(row)];
        r := Returned(target);
      } else {
        r := Raised;
      }
    }

    method InsertEntity(e: Id)
      requires !session.aborted && Constraints(session.now)
      modifies session`now, session`aborted
      ensures !session.aborted && Constraints(session.now)
      ensures session.now == old(session.now).(entities := old(session.now).entities + {e})
      ensures Becomes(old(session.now), [Created(e)], session.now)
    {
      CreationBecomes(session.now, e);
      hide Becomes;
      var _ := session.Execute(session.now.(entities := session.now.entities + {e}));
    }
  }

  // ---- The events, one by one ----

  lemma NothingDone(t: Tables, candidates: seq<Candidate>, chunk: Id, job: Option<Id>)
    ensures Becomes(t, ResolvingEvents(candidates, 0, chunk, job), t) && DeferredLinks(candidates, 0, chunk) == []
  {
  }

  lemma DoneByOne(t: Tables, u: Tables, v: Tables, candidates: seq<Candidate>, i: nat, chunk: Id, job: Option<Id>)
    requires i < |candidates| && candidates[i].granted
    requires Becomes(t, ResolvingEvents(candidates, i, chunk, job), u)
    requires Becomes(u, CandidateEvents(candidates[i], chunk, job), v)
    ensures Becomes(t, ResolvingEvents(candidates, i + 1, chunk, job), v)
    ensures DeferredLinks(candidates, i + 1, chunk)
         == DeferredLinks(candidates, i, chunk) + [ChunkLink(chunk, EntityFor(candidates[i]))]
  {
    hide Becomes, CandidateEvents;
    BecomesConcat(t, ResolvingEvents(candidates, i, chunk, job), u, CandidateEvents(candidates[i], chunk, job), v);
  }

  lemma DoneBySkipping(candidates: seq<Candidate>, i: nat, chunk: Id, job: Option<Id>)
    requires i < |candidates| && !candidates[i].granted
    ensures ResolvingEvents(candidates, i + 1, chunk, job) == ResolvingEvents(candidates, i, chunk, job)
    ensures DeferredLinks(candidates, i + 1, chunk) == DeferredLinks(candidates, i, chunk)
  {
  }

  /** Inserting links while skipping those already there is adding them one by one. */
  lemma {:induction false} LinksBecome(t: Tables, links: seq<ChunkLink>)
    requires Distinct(t.links) && forall l :: l in links ==> l.entity in t.entities
    ensures Becomes(t, Image(LinkEvent, links), t.(links := FirstPerKey(LinkKey, t.links + links)))
  {
    if links == [] {
      assert Image(LinkKey, t.links) == t.links && t.links + links == t.links;
      FirstPerKeyOfDistinct(LinkKey, t.links);
    } else {
      var n := |links| - 1;
      var front, l := links[..n], links[n];
      LinksBecome(t, front);
      var u := t.(links := FirstPerKey(LinkKey, t.links + front));
      LinkNext(t.links + front, l);
      assert t.links + links == (t.links + front) + [l] && links == front + [l];
      ImageAppend(LinkEvent, front, l);
      hide Becomes;
      BecomesNext(t, Image(LinkEvent, front), u, Linked(l), t.(links := FirstPerKey(LinkKey, t.links + links)));
    }
  }

  lemma LinkNext(links: seq<ChunkLink>, l: ChunkLink)
    ensures var kept := FirstPerKey(LinkKey, links);
      FirstPerKey(LinkKey, links + [l]) == if l in kept then kept else kept + [l]
  {
    assert (links + [l])[..|links|] == links;
    assert Image(LinkKey, links) == links;
    FirstPerKeyKeys(LinkKey, links);
    assert Image(LinkKey, FirstPerKey(LinkKey, links)) == FirstPerKey(LinkKey, links);
  }

  lemma NoRows(t: Tables, relations: seq<Extracted>, resolved: map<nat, Id>, chunk: Id)
    ensures Becomes(t, Image(RowEvent, RelationRows(relations, 0, resolved, chunk)), t)
  {
  }

  lemma RowsNext(relations: seq<Extracted>, i: nat, resolved: map<nat, Id>, chunk: Id)
    requires i < |relations| && RelationsResolve(relations[..i + 1], resolved)
    ensures RelationsResolve(relations[..i], resolved)
    ensures var x := relations[i];
      && x in relations[..i + 1]
      && RelationRows(relations, i + 1, resolved, chunk) == RelationRows(relations, i, resolved, chunk)
           + [Relation(x.newId, resolved[x.sourceIdx as nat], resolved[x.targetIdx as nat], x.kind, chunk, "INFERRED")]
  {
    assert relations[..i + 1][i] == relations[i];
    assert forall x :: x in relations[..i] ==> x in relations[..i + 1];
  }

  lemma RowBecomes(t: Tables, u: Tables, relations: seq<Extracted>, i: nat, resolved: map<nat, Id>, chunk: Id,
                   row: Relation)
    requires i < |relations| && RelationsResolve(relations[..i], resolved)
    requires RelationsResolve(relations[..i + 1], resolved)
    requires Becomes(t, Image(RowEvent, RelationRows(relations, i, resolved, chunk)), u)
    requires RelationRows(relations, i + 1, resolved, chunk) == RelationRows(relations, i, resolved, chunk) + [row]
    requires row.source in u.entities && row.target in u.entities
    ensures Becomes(t, Image(RowEvent, RelationRows(relations, i + 1, resolved, chunk)),
                    u.(relations := u.relations + [row]))
  {
    hide Becomes, RelationRows, RelationsResolve;
    ImageAppend(RowEvent, RelationRows(relations, i, resolved, chunk), row);
    BecomesNext(t, Image(RowEvent, RelationRows(relations, i, resolved, chunk)), u, Related(row),
                u.(relations := u.relations + [row]));
  }

  lemma ResolutionBecomes(t: Tables, u: Tables, v: Tables, t': Tables, candidates: seq<Candidate>,
                          relations: seq<Extracted>, resolved: map<nat, Id>, chunk: Id, job: Option<Id>)
    requires RelationsResolve(relations, resolved) && relations[..|relations|] == relations
    requires Becomes(t, ResolvingEvents(candidates, |candidates|, chunk, job), u)
    requires Becomes(u, Image(LinkEvent, DeferredLinks(candidates, |candidates|, chunk)), v)
    requires Becomes(v, Image(RowEvent, RelationRows(relations, |relations|, resolved, chunk)), t')
    ensures Becomes(t, ResolutionEvents(candidates, relations, resolved, chunk, job), t')
  {
    hide Becomes, Image, DeferredLinks, ResolvingEvents, RelationRows, RelationsResolve;
    var a, b := ResolvingEvents(candidates, |candidates|, chunk, job),
                Image(LinkEvent, DeferredLinks(candidates, |candidates|, chunk));
    BecomesConcat(t, a, u, b, v);
    BecomesConcat(t, a + b, v, Image(RowEvent, RelationRows(relations, |relations|, resolved, chunk)), t');
  }

  /** t' has the keys of t, the given new entities, and that many more log rows. */
  ghost predicate SameGraph(t: Tables, t': Tables, added: set<Id>, merges: nat) {
    && t'.entities == t.entities + added
    && Keys(t'.relations) == Keys(t.relations)
    && (forall r :: r in t'.relations ==> r.id in Image(RelationId, t.relations))
    && Members(t'.links) == Members(t.links)
    && t'.pages == t.pages && t'.mentions == t.mentions
    && t.log <= t'.log && |t'.log| == |t.log| + merges
    && t'.chunks == t.chunks && t'.jobs == t.jobs
  }

  lemma SameGraphComposes(t: Tables, u: Tables, v: Tables, a: set<Id>, b: set<Id>, m: nat, n: nat)
    requires SameGraph(t, u, a, m) && SameGraph(u, v, b, n)
    ensures SameGraph(t, v, a + b, m + n)
  {
    forall r | r in v.relations ensures r.id in Image(RelationId, t.relations) {
      var i :| 0 <= i < |u.relations| && Image(RelationId, u.relations)[i] == r.id;
      assert u.relations[i] in u.relations;
    }
  }

  lemma CreatedByGrows(candidates: seq<Candidate>, i: nat)
    requires i < |candidates|
    ensures CreatedBy(candidates, i + 1)
         == CreatedBy(candidates, i) + NewEntity(candidates[i])
  {
  }

  lemma ProgressByOne(t: Tables, u: Tables, v: Tables, candidates: seq<Candidate>, i: nat,
                      resolved: map<nat, Id>, deferred: seq<ChunkLink>, chunk: Id)
    requires i < |candidates| && Progress(t, u, candidates, i, resolved, deferred, chunk)
    requires CandidateOk(t, candidates, i) && candidates[i].granted && EntityFor(candidates[i]) in v.entities
    requires candidates[i].newId !in u.entities
    requires SameGraph(u, v, NewEntity(candidates[i]), NewMerges(candidates[i]))
    ensures Progress(t, v, candidates, i + 1, resolved[i := EntityFor(candidates[i])],
                     deferred + [ChunkLink(chunk, EntityFor(candidates[i]))], chunk)
  {
    hide *;
    var e, link := EntityFor(candidates[i]), ChunkLink(chunk, EntityFor(candidates[i]));
    ProgressParts(t, u, candidates, i, resolved, deferred, chunk);
    ResolvedByOne(candidates, i, resolved, deferred, chunk);
    TablesByOne(t, u, v, candidates, i, |resolved|, |resolved[i := e]|);
    CandidatesGrow(t, candidates, i);
    StaysWithin(resolved.Values, e, u.entities, v.entities);
    ProgressParts(t, v, candidates, i + 1, resolved[i := e], deferred + [link], chunk);
  }

  lemma StaysWithin(values: set<Id>, e: Id, before: set<Id>, after: set<Id>)
    requires values <= before <= after && e in after
    ensures values + {e} <= after
  {
  }

  /** The bookkeeping of one more resolved candidate. */
  lemma ResolvedByOne(candidates: seq<Candidate>, i: nat, resolved: map<nat, Id>, deferred: seq<ChunkLink>, chunk: Id)
    requires i < |candidates| && candidates[i].granted
    requires ResolvedTo(candidates, i, resolved)
    requires Members(deferred) == LinksTo(resolved.Values, chunk)
    ensures var e := EntityFor(candidates[i]);
      var after := resolved[i := e];
      && ResolvedTo(candidates, i + 1, after) && |after| == |resolved| + 1
      && after.Values == resolved.Values + {e}
      && Members(deferred + [ChunkLink(chunk, e)]) == LinksTo(after.Values, chunk)
  {
    hide *;
    var e := EntityFor(candidates[i]);
    ResolvedGrows(candidates, i, resolved);
    ValuesGrow(resolved, i, e);
    DeferredGrow(resolved.Values, e, chunk);
    MembersAppend(deferred, ChunkLink(chunk, e));
  }

  /** One more resolved candidate has created one more entity or logged one more merge. */
  lemma TablesByOne(t: Tables, u: Tables, v: Tables, candidates: seq<Candidate>, i: nat, n: nat, n': nat)
    requires i < |candidates| && CandidateOk(t, candidates, i) && candidates[i].granted && n' == n + 1
    requires candidates[i].newId !in u.entities
    requires |CreatedBy(candidates, i)| <= n
    requires SameGraph(t, u, CreatedBy(candidates, i), n - |CreatedBy(candidates, i)|)
    requires SameGraph(u, v, NewEntity(candidates[i]), NewMerges(candidates[i]))
    ensures var created := CreatedBy(candidates, i + 1);
      |created| <= n' && SameGraph(t, v, created, n' - |created|)
    ensures u.entities <= v.entities
  {
    hide *;
    var c, created := candidates[i], CreatedBy(candidates, i);
    var added, merges := NewEntity(c), NewMerges(c);
    SameGraphComposes(t, u, v, created, added, n - |created|, merges);
    EntitiesGrow(t, u, v, created, n - |created|, added, merges);
    OneOutcome(t, candidates, i);
    CreatedByGrows(candidates, i);
    assert c.newId !in created;
    assert |created + added| == |created| + |added|;
  }

  lemma ProgressParts(t: Tables, now: Tables, candidates: seq<Candidate>, i: nat,
                      resolved: map<nat, Id>, deferred: seq<ChunkLink>, chunk: Id)
    requires i <= |candidates|
    ensures var created := CreatedBy(candidates, i);
      Progress(t, now, candidates, i, resolved, deferred, chunk) <==>
        && |created| <= |resolved|
        && SameGraph(t, now, created, |resolved| - |created|)
        && ResolvedTo(candidates, i, resolved)
        && CandidatesOk(t, candidates, i)
        && resolved.Values <= now.entities
        && Members(deferred) == LinksTo(resolved.Values, chunk)
  {
    hide SameGraph, ResolvedTo, CandidatesOk, CreatedBy, LinksTo, Members;
  }

  lemma EntitiesGrow(t: Tables, u: Tables, v: Tables, created: set<Id>, m: nat, added: set<Id>, n: nat)
    requires SameGraph(t, u, created, m) && SameGraph(u, v, added, n)
    ensures created <= u.entities <= v.entities
  {
    hide Keys, Members, Image;
  }

  /** A candidate that can be resolved creates one entity or is merged once. */
  lemma OneOutcome(t: Tables, candidates: seq<Candidate>, i: nat)
    requires i < |candidates| && CandidateOk(t, candidates, i) && candidates[i].granted
    ensures |NewEntity(candidates[i])| + NewMerges(candidates[i]) == 1
    ensures NewEntity(candidates[i]) <= {candidates[i].newId}
  {
  }

  lemma CandidatesGrow(t: Tables, candidates: seq<Candidate>, i: nat)
    requires i < |candidates| && CandidatesOk(t, candidates, i) && CandidateOk(t, candidates, i)
    ensures CandidatesOk(t, candidates, i + 1)
  {
    hide CandidateOk;
  }

  lemma ProgressStarts(t: Tables, candidates: seq<Candidate>, chunk: Id)
    ensures Progress(t, t, candidates, 0, map[], [], chunk)
  {
    assert forall i :: 0 <= i < |t.relations| ==> Image(RelationId, t.relations)[i] == t.relations[i].id;
  }

  lemma ProgressFacts(t: Tables, u: Tables, candidates: seq<Candidate>, relations: seq<Extracted>, i: nat,
                      resolved: map<nat, Id>, deferred: seq<ChunkLink>, chunk: Id)
    requires i < |candidates| && Progress(t, u, candidates, i, resolved, deferred, chunk)
    requires FreshIds(t, candidates, relations)
    ensures u.chunks == t.chunks && u.jobs == t.jobs
    ensures candidates[i].newId !in u.entities
    ensures candidates[i].decision.DecidedMerge? ==> candidates[i].decision.target != candidates[i].newId
    ensures candidates[i].granted || candidates[i].decision.NoEmbedding? ==>
      (CandidateOk(t, candidates, i)
       <==> !candidates[i].decision.NoEmbedding? && !candidates[i].decision.NoValidDecision?
            && (candidates[i].decision.DecidedMerge? ==> candidates[i].decision.target in u.entities))
  {
    assert candidates[i] in candidates;
  }

  lemma ProgressBySkipping(t: Tables, u: Tables, candidates: seq<Candidate>, i: nat,
                           resolved: map<nat, Id>, deferred: seq<ChunkLink>, chunk: Id)
    requires i < |candidates| && Progress(t, u, candidates, i, resolved, deferred, chunk)
    requires !candidates[i].granted && !candidates[i].decision.NoEmbedding?
    ensures Progress(t, u, candidates, i + 1, resolved, deferred, chunk)
  {
    assert CreatedBy(candidates, i + 1) == CreatedBy(candidates, i);
  }

  lemma ProgressFinishes(t: Tables, u: Tables, candidates: seq<Candidate>,
                         resolved: map<nat, Id>, deferred: seq<ChunkLink>, chunk: Id)
    requires Progress(t, u, candidates, |candidates|, resolved, deferred, chunk)
    ensures CandidatesOk(t, candidates, |candidates|)
  {
  }

  lemma NotResolvable(t: Tables, candidates: seq<Candidate>, relations: seq<Extracted>)
    requires !CandidatesOk(t, candidates, |candidates|)
    ensures !Resolvable(t, candidates, relations)
  {
    hide CandidatesOk;
  }

  /** A relation index was granted exactly when it was resolved. */
  lemma ResolvableIs(t: Tables, candidates: seq<Candidate>, relations: seq<Extracted>, resolved: map<nat, Id>)
    requires CandidatesOk(t, candidates, |candidates|) && ResolvedTo(candidates, |candidates|, resolved)
    ensures Resolvable(t, candidates, relations) <==> RelationsResolve(relations, resolved)
  {
    hide CandidatesOk;
  }

  /** What the finished candidate loop hands to the inserts. */
  lemma ResolvedFacts(t: Tables, now: Tables, candidates: seq<Candidate>, resolved: map<nat, Id>,
                      deferred: seq<ChunkLink>, chunk: Id, relations: seq<Extracted>)
    requires Progress(t, now, candidates, |candidates|, resolved, deferred, chunk) && FreshIds(t, candidates, relations)
    ensures ResolvedTo(candidates, |candidates|, resolved) && CandidatesOk(t, candidates, |candidates|)
    ensures var created := CreatedBy(candidates, |candidates|);
      now.entities == t.entities + created && |created| + |now.log| - |t.log| == |resolved|
    ensures resolved.Values <= now.entities && Members(deferred) == LinksTo(resolved.Values, chunk)
    ensures forall l :: l in deferred ==> l.chunk == chunk && l.entity in now.entities
    ensures Keys(now.relations) == Keys(t.relations) && Members(now.links) == Members(t.links)
    ensures now.pages == t.pages && now.mentions == t.mentions && now.chunks == t.chunks
    ensures forall x, r :: x in relations && r in now.relations ==> x.newId != r.id
    ensures forall i, j :: 0 <= i < j < |relations| ==> relations[i].newId != relations[j].newId
  {
    hide CreatedBy, ResolvedTo, CandidatesOk, Keys;
    assert forall l :: l in deferred ==> l in Members(deferred);
    forall x, r | x in relations && r in now.relations ensures x.newId != r.id {
      var k :| 0 <= k < |t.relations| && Image(RelationId, t.relations)[k] == r.id;
      assert t.relations[k] in t.relations;
    }
  }

  lemma NotAllOk(t: Tables, candidates: seq<Candidate>, i: nat)
    requires i < |candidates| && !CandidateOk(t, candidates, i)
    ensures !CandidatesOk(t, candidates, |candidates|)
  {
  }

  lemma ResolvedGrows(candidates: seq<Candidate>, i: nat, resolved: map<nat, Id>)
    requires i < |candidates| && candidates[i].granted && ResolvedTo(candidates, i, resolved)
    ensures i !in resolved && ResolvedTo(candidates, i + 1, resolved[i := EntityFor(candidates[i])])
  {
  }

  lemma ValuesGrow(resolved: map<nat, Id>, i: nat, e: Id)
    requires i !in resolved
    ensures resolved[i := e].Values == resolved.Values + {e}
  {
    var after := resolved[i := e];
    assert after[i] == e;
    forall v | v in resolved.Values ensures v in after.Values {
      var k :| k in resolved && resolved[k] == v;
      assert after[k] == v;
    }
  }

  lemma DeferredGrow(values: set<Id>, e: Id, chunk: Id)
    ensures LinksTo(values + {e}, chunk) == LinksTo(values, chunk) + {ChunkLink(chunk, e)}
  {
  }

  function LinkKey(l: ChunkLink): ChunkLink { l }

  lemma LinksInsertOk(t: Tables, deferred: seq<ChunkLink>)
    requires Constraints(t)
    requires forall l :: l in deferred ==> l.chunk in t.chunks && l.entity in t.entities
    ensures var after := FirstPerKey(LinkKey, t.links + deferred);
      Constraints(t.(links := after)) && Members(after) == Members(t.links) + Members(deferred)
  {
    var all := t.links + deferred;
    FirstPerKeyKeys(LinkKey, all);
    assert Image(LinkKey, all) == all;
    assert Image(LinkKey, FirstPerKey(LinkKey, all)) == FirstPerKey(LinkKey, all);
  }

  lemma RelationInsertOk(t: Tables, row: Relation)
    requires Constraints(t) && row.source in t.entities && row.target in t.entities && row.chunk in t.chunks
    requires forall r :: r in t.relations ==> row.id != r.id
    ensures Constraints(t.(relations := t.relations + [row]))
  {
    ImageAppend(RelationId, t.relations, row);
    assert forall i :: 0 <= i < |t.relations| ==> t.relations[i] in t.relations;
  }

  lemma NothingTranslated(rows: seq<Relation>, resolved: map<nat, Id>, chunk: Id)
    ensures Keys(rows) == Keys(rows) + TranslatedKeys([], resolved, chunk)
  {
  }

  lemma TranslatedGrow(relations: seq<Extracted>, i: nat, resolved: map<nat, Id>, chunk: Id)
    requires i < |relations| && RelationsResolve(relations[..i], resolved)
    requires var x := relations[i];
      0 <= x.sourceIdx && x.sourceIdx as nat in resolved && 0 <= x.targetIdx && x.targetIdx as nat in resolved
    ensures var x := relations[i];
      && RelationsResolve(relations[..i + 1], resolved)
      && TranslatedKeys(relations[..i + 1], resolved, chunk) == TranslatedKeys(relations[..i], resolved, chunk)
           + {RelationKey(resolved[x.sourceIdx as nat], resolved[x.targetIdx as nat], x.kind, chunk)}
  {
    assert relations[..i + 1] == relations[..i] + [relations[i]];
  }

  lemma KeysGrow(rows: seq<Relation>, row: Relation)
    ensures Keys(rows + [row]) == Keys(rows) + {KeyOf(row)}
  {
  }

  lemma FreshNotMentioned(t: Tables, newId: Id, target: Id)
    requires Constraints(t) && newId !in t.entities
    ensures !MentionedTogether(t, newId, target)
  {
  }

  /** Absorbing an entity that was just created only writes the log row. */
  lemma MergingFreshChangesNothing(t: Tables, t': Tables, row: MergeLog)
    requires Constraints(t) && row.mergedFrom !in t.entities && row.mergedInto in t.entities
    requires Quotient(t.(entities := t.entities + {row.mergedFrom}), t', row)
    ensures SameGraph(t, t', {}, 1)
  {
    var newId, into := row.mergedFrom, row.mergedInto;
    EntitiesRedirect(t.entities + {newId}, newId, into);
    forall k | k in Keys(t.relations) ensures RedirectKey(newId, into, k) == k {
    }
    forall l | l in t.links ensures RedirectLink(newId, into)(l) == l {
    }
    forall r | r in t'.relations ensures r.id in Image(RelationId, t.relations) {
      var r0 :| r0 in t.relations && r == RedirectRelation(newId, into)(r0);
      var i :| 0 <= i < |t.relations| && t.relations[i] == r0;
      assert Image(RelationId, t.relations)[i] == r.id;
    }
    forall i | 0 <= i < |t.pages| ensures t'.pages[i] == t.pages[i] {
      assert t.pages[i] in t.pages;
    }
    forall i | 0 <= i < |t.mentions| ensures t'.mentions[i] == t.mentions[i] {
      assert t.mentions[i] in t.mentions;
    }
  }
}
