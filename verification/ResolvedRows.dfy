/** What a successful resolution leaves, row by row, and when it succeeds. */
module ResolvedRows {
  import opened Sequences
  import opened GraphTables
  import opened UnionFind
  import opened Resolution

  /** The candidate becomes the new entity e: its lock was granted and nothing like it was found or chosen. */
  predicate IsNew(c: Candidate, e: Id) {
    c.granted && (c.decision == NoMatches || c.decision == DecidedNew) && c.newId == e
  }

  /** What resolving candidate i takes; a target may be an entity some earlier candidate became. */
  predicate CanResolve(t: Tables, candidates: seq<Candidate>, i: nat)
    requires i < |candidates|
  {
    match candidates[i].decision
    case NoEmbedding => false
    case NoValidDecision => !candidates[i].granted
    case NoMatches => true
    case DecidedNew => true
    case DecidedMerge(target, _) =>
      candidates[i].granted ==> target in t.entities || exists j | 0 <= j < i :: IsNew(candidates[j], target)
  }

  lemma OkIsResolvable(t: Tables, candidates: seq<Candidate>, i: nat)
    requires i < |candidates|
    ensures CandidateOk(t, candidates, i) <==> CanResolve(t, candidates, i)
  {
    hide CreatedBy, IsNew;
    if candidates[i].decision.DecidedMerge? {
      CreatedExactly(candidates, i, candidates[i].decision.target);
    }
  }

  lemma CreatedExactly(candidates: seq<Candidate>, n: nat, e: Id)
    requires n <= |candidates|
    ensures e in CreatedBy(candidates, n) <==> exists j :: 0 <= j < n && IsNew(candidates[j], e)
  {
    if j :| 0 <= j < n && IsNew(candidates[j], e) {
      assert CreatesEntity(candidates[j]);
    }
    if e in CreatedBy(candidates, n) {
      var j :| 0 <= j < n && CreatesEntity(candidates[j]) && candidates[j].newId == e;
      assert IsNew(candidates[j], e);
    }
  }

  /** It returns exactly when every embedding arrives, every candidate whose lock was granted gets a valid decision,
      each chosen target is there by then, and the relations name granted candidates. */
  lemma ReturnsExactly(t: Tables, candidates: seq<Candidate>, relations: seq<Extracted>)
    ensures Resolvable(t, candidates, relations) <==>
      && (forall i :: 0 <= i < |candidates| ==> CanResolve(t, candidates, i))
      && (forall x :: x in relations ==>
            && 0 <= x.sourceIdx < |candidates| && candidates[x.sourceIdx].granted
            && 0 <= x.targetIdx < |candidates| && candidates[x.targetIdx].granted)
  {
    hide IsNew, CandidateOk;
    forall i: nat | i < |candidates| ensures CandidateOk(t, candidates, i) <==> CanResolve(t, candidates, i) {
      OkIsResolvable(t, candidates, i);
    }
  }

  /** A granted candidate stands for the entity it was merged into, or for its own. */
  lemma ResolvedExactly(candidates: seq<Candidate>, resolved: map<nat, Id>, i: nat)
    requires ResolvedTo(candidates, |candidates|, resolved)
    ensures i in resolved <==> i < |candidates| && candidates[i].granted
    ensures i in resolved ==>
      resolved[i] == match candidates[i].decision case DecidedMerge(target, _) => target case _ => candidates[i].newId
  {
  }

  /** The chunk is linked to what its candidates stand for. */
  lemma LinkedExactly(resolved: map<nat, Id>, chunk: Id, link: ChunkLink)
    ensures link in LinksTo(resolved.Values, chunk) <==>
      link.chunk == chunk && exists i :: i in resolved && resolved[i] == link.entity
  {
  }

  // ---- The log ----

  /** The audit row of a candidate that was merged away. */
  predicate IsAbsorption(c: Candidate, row: MergeLog, chunk: Id, job: Option<Id>) {
    && c.granted && c.decision.DecidedMerge?
    && row.mergedFrom == c.newId && row.mergedInto == c.decision.target && row.reason == c.decision.reason
    && row.chunk == Some(chunk) && row.job == job
  }

  lemma {:induction false} BecomesSplit(t: Tables, a: seq<Event>, b: seq<Event>, t': Tables) returns (v: Tables)
    requires Becomes(t, a + b, t')
    ensures Becomes(t, a, v) && Becomes(v, b, t')
  {
    hide Changes;
    if b == [] {
      v := t';
      assert a + b == a;
    } else {
      var n := |b| - 1;
      assert (a + b)[..|a + b| - 1] == a + b[..n] && (a + b)[|a + b| - 1] == b[n];
      var u :| Becomes(t, a + b[..n], u) && Changes(u, b[n], t');
      v := BecomesSplit(t, a, b[..n], u);
    }
  }

  lemma BecomesOne(t: Tables, event: Event, t': Tables)
    ensures Becomes(t, [event], t') <==> Changes(t, event, t')
  {
    hide Changes;
    assert [event][..0] == [];
    assert Becomes(t, [], t);
  }

  lemma CandidateLogs(t: Tables, c: Candidate, chunk: Id, job: Option<Id>, t': Tables)
    requires Becomes(t, CandidateEvents(c, chunk, job), t')
    ensures !(c.granted && c.decision.DecidedMerge?) ==> t'.log == t.log
    ensures c.granted && c.decision.DecidedMerge? ==>
      t'.log == t.log + [MergeLog(c.newId, c.decision.target, Some(chunk), job, c.decision.reason)]
  {
    hide Becomes, Changes;
    if !c.granted {
      NothingBecomes(t, t');
    } else if c.decision.DecidedMerge? {
      var row := MergeLog(c.newId, c.decision.target, Some(chunk), job, c.decision.reason);
      assert CandidateEvents(c, chunk, job) == [Created(c.newId)] + [MergedEntities(row)];
      var u := BecomesSplit(t, [Created(c.newId)], [MergedEntities(row)], t');
      BecomesOne(t, Created(c.newId), u);
      BecomesOne(u, MergedEntities(row), t');
      ChangesLog(t, Created(c.newId), u);
      ChangesLog(u, MergedEntities(row), t');
    } else {
      BecomesOne(t, Created(c.newId), t');
      ChangesLog(t, Created(c.newId), t');
    }
  }

  lemma ChangesLog(t: Tables, event: Event, t': Tables)
    requires Changes(t, event, t')
    ensures event.Created? ==> t'.log == t.log
    ensures event.MergedEntities? ==> t'.log == t.log + [event.row]
  {
    hide MergeOutcome, Collapsed;
  }

  lemma NothingBecomes(t: Tables, t': Tables)
    ensures Becomes(t, [], t') <==> t' == t
  {
  }

  lemma {:induction false} CandidatesLog(t: Tables, candidates: seq<Candidate>, n: nat, chunk: Id, job: Option<Id>,
                                         t': Tables)
    requires n <= |candidates| && Becomes(t, ResolvingEvents(candidates, n, chunk, job), t')
    ensures t.log <= t'.log
    ensures forall row :: row in t'.log[|t.log|..] <==>
      exists i :: 0 <= i < n && IsAbsorption(candidates[i], row, chunk, job)
  {
    hide Becomes, CandidateEvents, IsAbsorption;
    if n == 0 {
      NothingBecomes(t, t');
      assert t'.log[|t.log|..] == [];
    } else {
      var c := candidates[n - 1];
      var u := BecomesSplit(t, ResolvingEvents(candidates, n - 1, chunk, job), CandidateEvents(c, chunk, job), t');
      CandidatesLog(t, candidates, n - 1, chunk, job, u);
      CandidateLogs(u, c, chunk, job, t');
      LogNext(t.log, u.log, t'.log, c, chunk, job);
    }
  }

  lemma LogNext(before: seq<MergeLog>, log: seq<MergeLog>, after: seq<MergeLog>, c: Candidate, chunk: Id,
                job: Option<Id>)
    requires before <= log
    requires !(c.granted && c.decision.DecidedMerge?) ==> after == log
    requires c.granted && c.decision.DecidedMerge? ==>
      after == log + [MergeLog(c.newId, c.decision.target, Some(chunk), job, c.decision.reason)]
    ensures before <= after
    ensures forall row :: row in after[|before|..] <==>
      row in log[|before|..] || IsAbsorption(c, row, chunk, job)
  {
    if c.granted && c.decision.DecidedMerge? {
      assert after[|before|..] == log[|before|..] + [after[|log|]];
    }
  }

  lemma {:induction false} LinksLeaveLog(t: Tables, links: seq<ChunkLink>, t': Tables)
    requires Becomes(t, Image(LinkEvent, links), t')
    ensures t'.log == t.log
  {
    if links == [] {
    } else {
      var n := |links| - 1;
      assert Image(LinkEvent, links)[..n] == Image(LinkEvent, links[..n]);
      var u :| Becomes(t, Image(LinkEvent, links[..n]), u) && Changes(u, Linked(links[n]), t');
      LinksLeaveLog(t, links[..n], u);
    }
  }

  // ---- The relations ----

  lemma {:induction false} RowsAppended(t: Tables, rows: seq<Relation>, t': Tables)
    requires Becomes(t, Image(RowEvent, rows), t')
    ensures t'.relations == t.relations + rows && t'.log == t.log
  {
    if rows == [] {
      assert t.relations + rows == t.relations;
    } else {
      var n := |rows| - 1;
      assert Image(RowEvent, rows)[..n] == Image(RowEvent, rows[..n]);
      var u :| Becomes(t, Image(RowEvent, rows[..n]), u) && Changes(u, Related(rows[n]), t');
      RowsAppended(t, rows[..n], u);
      assert rows == rows[..n] + [rows[n]];
    }
  }

  /** The row of an extracted relation: its ends resolved, its kind kept, marked as inferred from the chunk. */
  ghost predicate IsRowOf(x: Extracted, resolved: map<nat, Id>, chunk: Id, row: Relation) {
    && row.id == x.newId && row.kind == x.kind && row.chunk == chunk && row.tag == "INFERRED"
    && 0 <= x.sourceIdx && x.sourceIdx as nat in resolved && row.source == resolved[x.sourceIdx as nat]
    && 0 <= x.targetIdx && x.targetIdx as nat in resolved && row.target == resolved[x.targetIdx as nat]
  }

  lemma {:induction false} RowsAre(relations: seq<Extracted>, n: nat, resolved: map<nat, Id>, chunk: Id)
    requires n <= |relations| && RelationsResolve(relations[..n], resolved)
    ensures var rows := RelationRows(relations, n, resolved, chunk);
      |rows| == n && forall i :: 0 <= i < n ==> IsRowOf(relations[i], resolved, chunk, rows[i])
  {
    if n == 0 {
    } else {
      assert relations[..n][n - 1] == relations[n - 1];
      assert forall y :: y in relations[..n - 1] ==> y in relations[..n];
      RowsAre(relations, n - 1, resolved, chunk);
    }
  }

  /** A successful resolution ends with one row per extracted relation, in their order, and has logged exactly the
      candidates it merged away. */
  lemma ResolutionLeaves(t: Tables, candidates: seq<Candidate>, relations: seq<Extracted>, resolved: map<nat, Id>,
                         chunk: Id, job: Option<Id>, t': Tables)
    requires RelationsResolve(relations, resolved)
    requires Becomes(t, ResolutionEvents(candidates, relations, resolved, chunk, job), t')
    ensures |t'.relations| >= |relations|
    ensures forall i :: 0 <= i < |relations| ==>
      IsRowOf(relations[i], resolved, chunk, t'.relations[|t'.relations| - |relations| + i])
    ensures t.log <= t'.log && forall row :: row in t'.log[|t.log|..] <==>
      exists i :: 0 <= i < |candidates| && IsAbsorption(candidates[i], row, chunk, job)
  {
    hide *;
    assert relations[..|relations|] == relations;
    var rows := RelationRows(relations, |relations|, resolved, chunk);
    var links := DeferredLinks(candidates, |candidates|, chunk);
    EventsAre(candidates, relations, resolved, chunk, job);
    var first := ResolvingEvents(candidates, |candidates|, chunk, job);
    var v := BecomesSplit(t, first + Image(LinkEvent, links), Image(RowEvent, rows), t');
    var u := BecomesSplit(t, first, Image(LinkEvent, links), v);
    CandidatesLog(t, candidates, |candidates|, chunk, job, u);
    LinksLeaveLog(u, links, v);
    RowsAppended(v, rows, t');
    RowsAre(relations, |relations|, resolved, chunk);
  }

  lemma EventsAre(candidates: seq<Candidate>, relations: seq<Extracted>, resolved: map<nat, Id>, chunk: Id,
                  job: Option<Id>)
    requires RelationsResolve(relations, resolved)
    ensures relations[..|relations|] == relations
    ensures ResolutionEvents(candidates, relations, resolved, chunk, job)
         == ResolvingEvents(candidates, |candidates|, chunk, job)
            + Image(LinkEvent, DeferredLinks(candidates, |candidates|, chunk))
            + Image(RowEvent, RelationRows(relations, |relations|, resolved, chunk))
  {
    assert relations[..|relations|] == relations;
  }
}
