/** Resolution in runs of the knowledge graph: what a successful resolution does
    is a sequence of union-find events, so a run that goes on with it is still a
    union-find. */
module ResolutionRuns {
  import opened Sequences
  import opened GraphTables
  import opened UnionFind
  import opened Resolution

  /** The fresh identifiers were never used before, not by absorbed entities either. */
  ghost predicate NeverUsed(created: set<Id>, candidates: seq<Candidate>) {
    forall c :: c in candidates ==> c.newId !in created
  }

  ghost predicate NoSelfMerge(events: seq<Event>) {
    forall k :: 0 <= k < |events| ==> !SelfMerge(events[k])
  }

  /** A run of distinct merges goes on through a successful resolution, event by event, to the tables it left,
      and those are still a union-find of everything ever created and inserted. */
  lemma ResolutionGoesOn(worlds: seq<World>, events: seq<Event>, candidates: seq<Candidate>,
                         relations: seq<Extracted>, resolved: map<nat, Id>, chunk: Id, job: Option<Id>, t': Tables)
    returns (longer: seq<World>)
    requires Run(worlds, events) && NoSelfMerge(events) && RelationsResolve(relations, resolved)
    requires var last := worlds[|events|];
      && FreshIds(last.t, candidates, relations) && NeverUsed(last.created, candidates)
      && Becomes(last.t, ResolutionEvents(candidates, relations, resolved, chunk, job), t')
    ensures var all := events + ResolutionEvents(candidates, relations, resolved, chunk, job);
      && worlds <= longer && Run(longer, all) && NoSelfMerge(all)
      && longer[|all|].t == t' && Inv(longer[|all|])
  {
    hide *;
    RunLength(worlds, events);
    var last := worlds[|events|];
    var more := ResolutionEvents(candidates, relations, resolved, chunk, job);
    ResolutionIsFresh(last, candidates, relations, resolved, chunk, job);
    longer := RunGoesOn(worlds, events, more, t');
    RunLength(longer, events + more);
    NoSelfMergeConcat(events, more);
    StillUnionFind(longer, events + more);
  }

  lemma RunLength(worlds: seq<World>, events: seq<Event>)
    requires Run(worlds, events)
    ensures |worlds| == |events| + 1
  {
  }

  lemma StillUnionFind(worlds: seq<World>, events: seq<Event>)
    requires Run(worlds, events) && NoSelfMerge(events)
    ensures Inv(worlds[|events|])
  {
    hide Inv, Step, Initial;
    OrdinaryRunsAreUnionFind(worlds, events, |events|);
  }

  lemma NoSelfMergeConcat(events: seq<Event>, more: seq<Event>)
    requires NoSelfMerge(events) && NoSelfMerge(more)
    ensures NoSelfMerge(events + more)
  {
  }

  /** A resolution creates each of its identifiers once and merges no entity into itself. */
  lemma ResolutionIsFresh(w: World, candidates: seq<Candidate>, relations: seq<Extracted>, resolved: map<nat, Id>,
                          chunk: Id, job: Option<Id>)
    requires FreshIds(w.t, candidates, relations) && NeverUsed(w.created, candidates)
    requires RelationsResolve(relations, resolved)
    ensures var events := ResolutionEvents(candidates, relations, resolved, chunk, job);
      FreshIn(events, w.created) && NoSelfMerge(events)
  {
    assert relations[..|relations|] == relations;
    var resolving := ResolvingEvents(candidates, |candidates|, chunk, job);
    var links := Image(LinkEvent, DeferredLinks(candidates, |candidates|, chunk));
    var rows := Image(RowEvent, RelationRows(relations, |relations|, resolved, chunk));
    assert ResolutionEvents(candidates, relations, resolved, chunk, job) == resolving + links + rows;
    assert forall k :: 0 <= k < |links| ==> links[k].Linked?;
    assert forall k :: 0 <= k < |rows| ==> rows[k].Related?;
    hide *;
    ResolvingIsFresh(w.t, candidates, relations, w.created, |candidates|, chunk, job);
    CreatesNothing(links, w.created + CreatedIn(resolving));
    FreshGoesOn(resolving, links, w.created);
    CreatesNothing(rows, w.created + CreatedIn(resolving + links));
    FreshGoesOn(resolving + links, rows, w.created);
    NoSelfMergeConcat(resolving, links);
    NoSelfMergeConcat(resolving + links, rows);
  }

  lemma {:induction false} ResolvingIsFresh(t: Tables, candidates: seq<Candidate>, relations: seq<Extracted>,
                                            created: set<Id>, n: nat, chunk: Id, job: Option<Id>)
    requires n <= |candidates| && FreshIds(t, candidates, relations) && NeverUsed(created, candidates)
    ensures var events := ResolvingEvents(candidates, n, chunk, job);
      && FreshIn(events, created) && NoSelfMerge(events)
      && forall e :: e in CreatedIn(events) ==> exists i :: 0 <= i < n && candidates[i].newId == e
  {
    hide FreshIn, NoSelfMerge, CreatedIn, CandidateEvents;
    if n == 0 {
      CreatesNothing([], created);
    } else {
      ResolvingIsFresh(t, candidates, relations, created, n - 1, chunk, job);
      var front, c := ResolvingEvents(candidates, n - 1, chunk, job), candidates[n - 1];
      assert c in candidates;
      CandidateIsFresh(c, created + CreatedIn(front), chunk, job);
      FreshGoesOn(front, CandidateEvents(c, chunk, job), created);
      NoSelfMergeConcat(front, CandidateEvents(c, chunk, job));
    }
  }

  lemma CandidateIsFresh(c: Candidate, created: set<Id>, chunk: Id, job: Option<Id>)
    requires c.newId !in created
    requires c.decision.DecidedMerge? ==> c.decision.target != c.newId
    ensures var events := CandidateEvents(c, chunk, job);
      FreshIn(events, created) && NoSelfMerge(events) && CreatedIn(events) <= {c.newId}
  {
  }

  lemma CreatesNothing(events: seq<Event>, created: set<Id>)
    requires forall k :: 0 <= k < |events| ==> events[k].Linked? || events[k].Related?
    ensures FreshIn(events, created) && NoSelfMerge(events) && CreatedIn(events) == {}
  {
  }

  lemma FreshGoesOn(events: seq<Event>, more: seq<Event>, created: set<Id>)
    requires FreshIn(events, created) && FreshIn(more, created + CreatedIn(events))
    ensures FreshIn(events + more, created)
    ensures CreatedIn(events + more) == CreatedIn(events) + CreatedIn(more)
  {
    var all := events + more;
    forall i | 0 <= i < |all| && all[i].Created? ensures all[i].e !in created + CreatedIn(all[..i]) {
      if i < |events| {
        assert all[..i] == events[..i];
      } else {
        assert all[..i] == events + more[..i - |events|];
      }
    }
  }
}
