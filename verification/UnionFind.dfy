/** Runs of the knowledge graph: entities, links and relations are added and
    entities are merged. The merge log behaves as a union-find forest, and the
    tables are the image of everything ever inserted under its find function. */
module UnionFind {
  import opened Sequences
  import opened GraphTables
  import opened GraphMerge

  /** The tables, with the history a run has accumulated: every entity ever created, and the relation keys
      and links ever inserted whose chunk has not been deleted with its source. */
  datatype World = World(t: Tables, created: set<Id>, relationsEver: set<RelationKey>, linksEver: set<ChunkLink>)

  datatype Event =
    | Created(e: Id)
    | Linked(l: ChunkLink)
    | Related(r: Relation)
    | MergedEntities(row: MergeLog)
    | ChunksDeleted(gone: set<Id>)
    | Elsewhere

  function ForgetChunk(gone: set<Id>): MergeLog -> MergeLog {
    (row: MergeLog) => if row.chunk.Some? && row.chunk.value in gone then row.(chunk := None) else row
  }

  /** What one committed change does to the tables. Elsewhere covers pages, mentions, new chunks and jobs. */
  ghost predicate Changes(t: Tables, event: Event, t': Tables) {
    match event
    case Created(e) => t' == t.(entities := t.entities + {e})
    case Linked(l) =>
      var links := if l in t.links then t.links else t.links + [l];
      l.entity in t.entities && t' == t.(links := links)
    case Related(r) =>
      && r.source in t.entities && r.target in t.entities
      && t' == t.(relations := t.relations + [r])
    case MergedEntities(row) =>
      && MergeOutcome(t, row).Merged?
      && (if row.mergedFrom != row.mergedInto then Quotient(t, t', row) else Erased(t, t', row))
    case ChunksDeleted(gone) =>
      && Keys(t'.relations) == (set k | k in Keys(t.relations) && k.chunk !in gone)
      && Members(t'.links) == (set l | l in Members(t.links) && l.chunk !in gone)
      && t' == t.(relations := t'.relations, links := t'.links, chunks := t.chunks - gone,
                  log := Image(ForgetChunk(gone), t.log))
    case Elsewhere =>
      t' == t.(pages := t'.pages, mentions := t'.mentions, chunks := t'.chunks, jobs := t'.jobs)
  }

  /** The world after a change that left the tables t'. */
  function Remembering(w: World, event: Event, t': Tables): World {
    match event
    case Created(e) => w.(t := t', created := w.created + {e})
    case Linked(l) => w.(t := t', linksEver := w.linksEver + {l})
    case Related(r) => w.(t := t', relationsEver := w.relationsEver + {KeyOf(r)})
    case ChunksDeleted(gone) =>
      w.(t := t', relationsEver := (set k | k in w.relationsEver && k.chunk !in gone),
         linksEver := (set l | l in w.linksEver && l.chunk !in gone))
    case MergedEntities(_) => w.(t := t')
    case Elsewhere => w.(t := t')
  }

  /** One committed change; no entity is ever created with an identifier used before. */
  ghost predicate Step(w: World, event: Event, w': World) {
    && (event.Created? ==> event.e !in w.created)
    && Changes(w.t, event, w'.t)
    && w' == Remembering(w, event, w'.t)
  }

  ghost predicate Initial(w: World) {
    && w.t.entities == {} && w.t.relations == [] && w.t.links == [] && w.t.log == []
    && w.created == {} && w.relationsEver == {} && w.linksEver == {}
  }

  ghost predicate Run(worlds: seq<World>, events: seq<Event>) {
    && |worlds| == |events| + 1
    && Initial(worlds[0])
    && forall i :: 0 <= i < |events| ==> Step(worlds[i], events[i], worlds[i + 1])
  }

  // ---- The find function of a merge log ----

  ghost function Find(log: seq<MergeLog>, e: Id): Id {
    if log == [] then e
    else
      var row := log[|log| - 1];
      Redirect(row.mergedFrom, row.mergedInto, Find(log[..|log| - 1], e))
  }

  ghost function FindKey(log: seq<MergeLog>, k: RelationKey): RelationKey {
    k.(source := Find(log, k.source), target := Find(log, k.target))
  }

  ghost function FindLink(log: seq<MergeLog>, l: ChunkLink): ChunkLink {
    l.(entity := Find(log, l.entity))
  }

  ghost function MergedAway(log: seq<MergeLog>): set<Id> { set row | row in log :: row.mergedFrom }

  /** No entity is absorbed twice, and none is merged into after it was absorbed. */
  ghost predicate Forest(log: seq<MergeLog>) {
    && (forall i, j :: 0 <= i < j < |log| ==> log[i].mergedFrom != log[j].mergedFrom)
    && (forall i, j :: 0 <= i <= j < |log| ==> log[i].mergedFrom != log[j].mergedInto)
  }

  /** Every entity ever created is live or absorbed, never both, and find leads to a live one. */
  ghost predicate Partition(created: set<Id>, live: set<Id>, log: seq<MergeLog>) {
    && created == live + MergedAway(log)
    && live !! MergedAway(log)
    && Forest(log)
    && forall e :: e in created ==> Find(log, e) in live
  }

  ghost predicate Inv(w: World) {
    && Partition(w.created, w.t.entities, w.t.log)
    && (forall k :: k in w.relationsEver ==> k.source in w.created && k.target in w.created)
    && (forall l :: l in w.linksEver ==> l.entity in w.created)
    && Keys(w.t.relations) == (set k | k in w.relationsEver :: FindKey(w.t.log, k))
    && Members(w.t.links) == (set l | l in w.linksEver :: FindLink(w.t.log, l))
  }

  predicate SelfMerge(event: Event) { event.MergedEntities? && event.row.mergedFrom == event.row.mergedInto }

  /** In exactly the states of a run before which no entity was merged into itself: each entity ever created is
      live or absorbed by exactly one log row, find leads to a live entity, and relation keys and chunk
      links are the image of everything ever inserted under find. */
  lemma {:induction false} RunsAreUnionFind(worlds: seq<World>, events: seq<Event>, i: nat)
    requires Run(worlds, events) && i < |worlds|
    ensures Inv(worlds[i]) <==> forall k :: 0 <= k < i ==> !SelfMerge(events[k])
  {
    if forall k :: 0 <= k < i ==> !SelfMerge(events[k]) {
      OrdinaryRunsAreUnionFind(worlds, events, i);
    } else {
      SelfRowsStay(worlds, events, i);
    }
  }

  lemma {:induction false} OrdinaryRunsAreUnionFind(worlds: seq<World>, events: seq<Event>, i: nat)
    requires Run(worlds, events) && i < |worlds| && forall k :: 0 <= k < i ==> !SelfMerge(events[k])
    ensures Inv(worlds[i])
  {
    if i == 0 {
    } else {
      OrdinaryRunsAreUnionFind(worlds, events, i - 1);
      hide Inv, Step;
      StepKeepsInv(worlds[i - 1], events[i - 1], worlds[i]);
    }
  }

  ghost predicate HasSelfRow(log: seq<MergeLog>) {
    exists j :: 0 <= j < |log| && log[j].mergedFrom == log[j].mergedInto
  }

  /** A self-merge leaves a log row for good, and with such a row the log is no forest. */
  lemma {:induction false} SelfRowsStay(worlds: seq<World>, events: seq<Event>, i: nat)
    requires Run(worlds, events) && i < |worlds|
    ensures HasSelfRow(worlds[i].t.log) <==> exists k :: 0 <= k < i && SelfMerge(events[k])
    ensures HasSelfRow(worlds[i].t.log) ==> !Inv(worlds[i])
  {
    if i == 0 {
    } else {
      SelfRowsStay(worlds, events, i - 1);
      hide Inv, HasSelfRow, Step;
      StepSelfRow(worlds[i - 1], events[i - 1], worlds[i]);
    }
    SelfRowBreaks(worlds[i]);
  }

  lemma SelfRowBreaks(w: World)
    ensures HasSelfRow(w.t.log) ==> !Inv(w)
  {
  }

  lemma StepSelfRow(w: World, event: Event, w': World)
    requires Step(w, event, w')
    ensures HasSelfRow(w'.t.log) <==> HasSelfRow(w.t.log) || SelfMerge(event)
  {
    var log, log' := w.t.log, w'.t.log;
    hide Collapsed;
    if event.MergedEntities? {
      assert log' == log + [event.row];
      assert log'[|log|] == event.row;
    }
    assert |log| <= |log'|;
    assert forall j :: 0 <= j < |log| ==>
      log'[j].mergedFrom == log[j].mergedFrom && log'[j].mergedInto == log[j].mergedInto;
    if j :| 0 <= j < |log| && log[j].mergedFrom == log[j].mergedInto {
      assert log'[j].mergedFrom == log'[j].mergedInto;
    }
    if j :| 0 <= j < |log'| && log'[j].mergedFrom == log'[j].mergedInto {
      assert j < |log| ==> log[j].mergedFrom == log[j].mergedInto;
    }
  }

  lemma StepKeepsInv(w: World, event: Event, w': World)
    requires Inv(w) && Step(w, event, w') && !SelfMerge(event)
    ensures Inv(w')
  {
    match event
    case Created(e) =>
      FindOfLive(w.t.log, e);
      assert Find(w'.t.log, e) == e;
    case Linked(l) =>
      FindOfLive(w.t.log, l.entity);
      assert FindLink(w.t.log, l) == l;
      assert Members(w'.t.links) == Members(w.t.links) + {l};
    case Related(r) =>
      FindOfLive(w.t.log, r.source);
      FindOfLive(w.t.log, r.target);
      assert FindKey(w.t.log, KeyOf(r)) == KeyOf(r);
      assert Keys(w'.t.relations) == Keys(w.t.relations) + {KeyOf(r)};
    case MergedEntities(row) =>
      MergeKeepsInv(w, row, w');
    case ChunksDeleted(gone) =>
      DeletionKeepsInv(w, gone, w');
    case Elsewhere =>
  }

  lemma {:induction false} FindForgetsChunks(log: seq<MergeLog>, gone: set<Id>, e: Id)
    ensures Find(Image(ForgetChunk(gone), log), e) == Find(log, e)
  {
    var log' := Image(ForgetChunk(gone), log);
    if log == [] {
    } else {
      var n := |log| - 1;
      assert log'[..n] == Image(ForgetChunk(gone), log[..n]);
      FindForgetsChunks(log[..n], gone, e);
    }
  }

  lemma ForestForgetsChunks(log: seq<MergeLog>, gone: set<Id>)
    ensures MergedAway(Image(ForgetChunk(gone), log)) == MergedAway(log)
    ensures Forest(Image(ForgetChunk(gone), log)) <==> Forest(log)
  {
    var log' := Image(ForgetChunk(gone), log);
    assert forall i :: 0 <= i < |log| ==>
      log'[i].mergedFrom == log[i].mergedFrom && log'[i].mergedInto == log[i].mergedInto;
    forall e ensures e in MergedAway(log') <==> e in MergedAway(log) {
      if row :| row in log && row.mergedFrom == e {
        var i :| 0 <= i < |log| && log[i] == row;
        assert log'[i] in log';
      }
      if row :| row in log' && row.mergedFrom == e {
        var i :| 0 <= i < |log'| && log'[i] == row;
        assert log[i] in log;
      }
    }
  }

  lemma DeletionKeepsInv(w: World, gone: set<Id>, w': World)
    requires Inv(w) && Step(w, ChunksDeleted(gone), w')
    ensures Inv(w')
  {
    hide Find, Forest, MergedAway, FindKey, FindLink, Keys, Members;
    forall e ensures Find(w'.t.log, e) == Find(w.t.log, e) {
      FindForgetsChunks(w.t.log, gone, e);
    }
    ForestForgetsChunks(w.t.log, gone);
    KeysForgetChunks(w.relationsEver, Keys(w.t.relations), w.t.log, gone);
    LinksForgetChunks(w.linksEver, Members(w.t.links), w.t.log, gone);
  }

  lemma KeysForgetChunks(ever: set<RelationKey>, keys: set<RelationKey>, log: seq<MergeLog>, gone: set<Id>)
    requires keys == (set k | k in ever :: FindKey(log, k))
    ensures (set k | k in keys && k.chunk !in gone)
         == (set k | k in ever && k.chunk !in gone :: FindKey(Image(ForgetChunk(gone), log), k))
  {
    hide Find, Image;
    forall k ensures FindKey(Image(ForgetChunk(gone), log), k) == FindKey(log, k) {
      FindForgetsChunks(log, gone, k.source);
      FindForgetsChunks(log, gone, k.target);
    }
  }

  lemma LinksForgetChunks(ever: set<ChunkLink>, links: set<ChunkLink>, log: seq<MergeLog>, gone: set<Id>)
    requires links == (set l | l in ever :: FindLink(log, l))
    ensures (set l | l in links && l.chunk !in gone)
         == (set l | l in ever && l.chunk !in gone :: FindLink(Image(ForgetChunk(gone), log), l))
  {
    hide Find, Image;
    forall l ensures FindLink(Image(ForgetChunk(gone), log), l) == FindLink(log, l) {
      FindForgetsChunks(log, gone, l.entity);
    }
  }

  lemma FindOfLive(log: seq<MergeLog>, e: Id)
    requires e !in MergedAway(log)
    ensures Find(log, e) == e
  {
    if log == [] {
    } else {
      var n := |log| - 1;
      assert log[n] in log;
      assert forall row :: row in log[..n] ==> row in log;
      FindOfLive(log[..n], e);
    }
  }

  lemma MergeKeepsInv(w: World, row: MergeLog, w': World)
    requires Inv(w) && Step(w, MergedEntities(row), w') && row.mergedFrom != row.mergedInto
    ensures Inv(w')
  {
    EntitiesRedirect(w.t.entities, row.mergedFrom, row.mergedInto);
    PartitionMerges(w.created, w.t.entities, w.t.log, row);
    MergedKeys(w, row, w');
    MergedLinks(w, row, w');
  }

  lemma PartitionMerges(created: set<Id>, live: set<Id>, log: seq<MergeLog>, row: MergeLog)
    requires Partition(created, live, log)
    requires row.mergedFrom in live && row.mergedInto in live && row.mergedFrom != row.mergedInto
    ensures forall e :: Find(log + [row], e) == Redirect(row.mergedFrom, row.mergedInto, Find(log, e))
    ensures Partition(created, live - {row.mergedFrom}, log + [row])
  {
    ForestGrows(log, row);
    assert (log + [row])[..|log|] == log;
  }

  lemma ForestGrows(log: seq<MergeLog>, row: MergeLog)
    requires Forest(log) && row.mergedFrom != row.mergedInto
    requires row.mergedFrom !in MergedAway(log) && row.mergedInto !in MergedAway(log)
    ensures MergedAway(log + [row]) == MergedAway(log) + {row.mergedFrom}
    ensures Forest(log + [row])
  {
    assert forall i :: 0 <= i < |log| ==> log[i] in log && log[i].mergedFrom in MergedAway(log);
  }

  lemma MergedKeys(w: World, row: MergeLog, w': World)
    requires Inv(w) && Step(w, MergedEntities(row), w') && row.mergedFrom != row.mergedInto
    requires forall e :: Find(w'.t.log, e) == Redirect(row.mergedFrom, row.mergedInto, Find(w.t.log, e))
    ensures Keys(w'.t.relations) == set k | k in w.relationsEver :: FindKey(w'.t.log, k)
  {
    var from, into := row.mergedFrom, row.mergedInto;
    assert forall k :: FindKey(w'.t.log, k) == RedirectKey(from, into, FindKey(w.t.log, k));
    forall k | k in w.relationsEver ensures FindKey(w'.t.log, k) in Keys(w'.t.relations) {
      assert FindKey(w.t.log, k) in Keys(w.t.relations);
    }
  }

  lemma MergedLinks(w: World, row: MergeLog, w': World)
    requires Inv(w) && Step(w, MergedEntities(row), w') && row.mergedFrom != row.mergedInto
    requires forall e :: Find(w'.t.log, e) == Redirect(row.mergedFrom, row.mergedInto, Find(w.t.log, e))
    ensures Members(w'.t.links) == set l | l in w.linksEver :: FindLink(w'.t.log, l)
  {
    hide Find, FindLink, FindKey, Collapsed, Partition, Members, Keys, MergeOutcome, Image, Redirect;
    LinksRedirected(w.linksEver, w.t.links, w'.t.links, w.t.log, w'.t.log, row);
  }

  lemma LinksRedirected(ever: set<ChunkLink>, links: seq<ChunkLink>, links': seq<ChunkLink>, log: seq<MergeLog>,
                        log': seq<MergeLog>, row: MergeLog)
    requires Members(links) == set l | l in ever :: FindLink(log, l)
    requires Members(links') == set l | l in links :: RedirectLink(row.mergedFrom, row.mergedInto)(l)
    requires forall e :: Find(log', e) == Redirect(row.mergedFrom, row.mergedInto, Find(log, e))
    ensures Members(links') == set l | l in ever :: FindLink(log', l)
  {
    hide Find;
    var f := RedirectLink(row.mergedFrom, row.mergedInto);
    assert forall l :: FindLink(log', l) == f(FindLink(log, l));
    forall l | l in ever ensures FindLink(log', l) in Members(links') {
      assert FindLink(log, l) in Members(links);
    }
    forall l | l in Members(links') ensures exists l0 :: l0 in ever && l == FindLink(log', l0) {
      var l1 :| l1 in links && l == f(l1);
      assert l1 in Members(links);
    }
  }

  // ---- Following the log ----

  ghost function RowOf(log: seq<MergeLog>, e: Id): (i: nat)
    requires e in MergedAway(log)
    ensures i < |log| && log[i].mergedFrom == e
  {
    var i: nat :| i < |log| && log[i].mergedFrom == e;
    i
  }

  /** Follow merged_into pointers until an entity no row absorbed. */
  ghost function Chase(log: seq<MergeLog>, e: Id): Id
    requires Forest(log)
    decreases if e in MergedAway(log) then |log| - RowOf(log, e) else 0
  {
    if e in MergedAway(log) then Chase(log, log[RowOf(log, e)].mergedInto) else e
  }

  /** Both ends of every merge have the same representative ever after. */
  lemma {:induction false} MergeUnites(log: seq<MergeLog>, i: nat)
    requires Forest(log) && i < |log|
    ensures Find(log, log[i].mergedFrom) == Find(log, log[i].mergedInto)
  {
    var n := |log| - 1;
    if i < n {
      assert log[..n][i] == log[i];
      MergeUnites(log[..n], i);
    } else {
      FindOfLive(log[..n], log[n].mergedFrom);
      FindOfLive(log[..n], log[n].mergedInto);
    }
  }

  /** Following the log pointer by pointer terminates, at find's representative. */
  lemma {:induction false} ChaseIsFind(log: seq<MergeLog>, e: Id)
    requires Forest(log)
    ensures Chase(log, e) == Find(log, e)
    ensures Chase(log, e) !in MergedAway(log)
    decreases if e in MergedAway(log) then |log| - RowOf(log, e) else 0
  {
    if e in MergedAway(log) {
      MergeUnites(log, RowOf(log, e));
      ChaseIsFind(log, log[RowOf(log, e)].mergedInto);
    } else {
      FindOfLive(log, e);
    }
  }

  /** Find identifies no more than the merges do: whatever agrees on the two ends
      of every merge agrees on an entity and its representative. */
  lemma {:induction false} FindIsLeast(log: seq<MergeLog>, colour: Id -> int, e: Id)
    requires forall row :: row in log ==> colour(row.mergedFrom) == colour(row.mergedInto)
    ensures colour(Find(log, e)) == colour(e)
  {
    if log == [] {
    } else {
      assert log[|log| - 1] in log;
      FindIsLeast(log[..|log| - 1], colour, e);
    }
  }

  ghost predicate Absorbs(log: seq<MergeLog>, e: Id, f: Id) {
    exists row :: row in log && row.mergedFrom == e && row.mergedInto == f
  }

  ghost predicate Leads(log: seq<MergeLog>, path: seq<Id>) {
    && |path| >= 2
    && forall i :: 0 <= i < |path| - 1 ==> Absorbs(log, path[i], path[i + 1])
  }

  /** The merge log has no cycle, of any length. */
  lemma MergeLogIsAcyclic(log: seq<MergeLog>, path: seq<Id>)
    requires Forest(log) && Leads(log, path)
    ensures path[0] != path[|path| - 1]
  {
    assert Absorbs(log, path[0], path[0 + 1]);
    var row :| row in log && row.mergedFrom == path[0] && row.mergedInto == path[1];
    if path[|path| - 1] in MergedAway(log) {
      RanksRise(log, path, |path| - 1);
    } else {
      assert row.mergedFrom in MergedAway(log);
    }
  }

  lemma {:induction false} RanksRise(log: seq<MergeLog>, path: seq<Id>, i: nat)
    requires Forest(log) && Leads(log, path) && 1 <= i < |path|
    requires path[i] in MergedAway(log)
    ensures path[0] in MergedAway(log) && RowOf(log, path[0]) < RowOf(log, path[i])
  {
    assert Absorbs(log, path[i - 1], path[i - 1 + 1]);
    var row :| row in log && row.mergedFrom == path[i - 1] && row.mergedInto == path[i];
    assert row.mergedFrom in MergedAway(log);
    var j :| 0 <= j < |log| && log[j] == row;
    assert RowOf(log, path[i - 1]) == j;
    if i <= 1 {
    } else {
      RanksRise(log, path, i - 1);
    }
  }

  // ---- From tables to runs ----

  /** The events, one after the other, can take the tables t to the tables t'. */
  ghost predicate Becomes(t: Tables, events: seq<Event>, t': Tables) {
    if events == [] then t' == t
    else
      var n := |events| - 1;
      exists u :: Becomes(t, events[..n], u) && Changes(u, events[n], t')
  }

  lemma BecomesNext(t: Tables, events: seq<Event>, u: Tables, event: Event, t': Tables)
    requires Becomes(t, events, u) && Changes(u, event, t')
    ensures Becomes(t, events + [event], t')
  {
    hide Changes;
    assert (events + [event])[..|events|] == events;
  }

  lemma {:induction false} BecomesConcat(t: Tables, events: seq<Event>, u: Tables, more: seq<Event>, t': Tables)
    requires Becomes(t, events, u) && Becomes(u, more, t')
    ensures Becomes(t, events + more, t')
  {
    hide Changes;
    if more == [] {
      assert events + more == events;
    } else {
      var n := |more| - 1;
      var v :| Becomes(u, more[..n], v) && Changes(v, more[n], t');
      BecomesConcat(t, events, u, more[..n], v);
      BecomesNext(t, events + more[..n], v, more[n], t');
      assert events + more == events + more[..n] + [more[n]];
    }
  }

  lemma OneBecomes(t: Tables, event: Event, t': Tables)
    requires Changes(t, event, t')
    ensures Becomes(t, [event], t')
  {
    hide Changes;
    BecomesNext(t, [], t, event, t');
    assert [] + [event] == [event];
  }

  /** A merge, as merge_entity performs it, is one event. */
  lemma MergeBecomes(t: Tables, row: MergeLog, t': Tables)
    requires MergeOutcome(t, row).Merged?
    requires if row.mergedFrom != row.mergedInto then Quotient(t, t', row) else Erased(t, t', row)
    ensures Becomes(t, [MergedEntities(row)], t')
  {
    hide Quotient, Erased, MergeOutcome, Becomes;
    OneBecomes(t, MergedEntities(row), t');
  }

  lemma CreationBecomes(t: Tables, e: Id)
    ensures Becomes(t, [Created(e)], t.(entities := t.entities + {e}))
  {
    hide Becomes;
    OneBecomes(t, Created(e), t.(entities := t.entities + {e}));
  }

  /** The identifiers the events create. */
  ghost function CreatedIn(events: seq<Event>): set<Id> {
    set event | event in events && event.Created? :: event.e
  }

  /** No event creates an identifier of the given set or one created by an event before it. */
  ghost predicate FreshIn(events: seq<Event>, created: set<Id>) {
    forall i :: 0 <= i < |events| && events[i].Created? ==> events[i].e !in created + CreatedIn(events[..i])
  }

  /** A run goes on with whatever its last tables become under events with fresh identifiers. */
  lemma {:induction false} RunGoesOn(worlds: seq<World>, events: seq<Event>, more: seq<Event>, t': Tables)
    returns (longer: seq<World>)
    requires Run(worlds, events)
    requires Becomes(worlds[|events|].t, more, t') && FreshIn(more, worlds[|events|].created)
    ensures worlds <= longer && Run(longer, events + more)
    ensures var last := longer[|events + more|];
      last.t == t' && last.created == worlds[|events|].created + CreatedIn(more)
  {
    if more == [] {
      longer := worlds;
      assert events + more == events;
    } else {
      var n, last := |more| - 1, worlds[|events|];
      var front, event := more[..n], more[n];
      var u :| Becomes(last.t, front, u) && Changes(u, event, t');
      FreshFront(more, last.created);
      var before := RunGoesOn(worlds, events, front, u);
      var w := before[|events + front|];
      CreatedNext(front, event);
      assert more == front + [event];
      longer := before + [Remembering(w, event, t')];
      RunNext(before, events + front, event, t');
      assert events + more == events + front + [event];
    }
  }

  lemma RunNext(worlds: seq<World>, events: seq<Event>, event: Event, t': Tables)
    requires Run(worlds, events)
    requires var w := worlds[|events|];
      Changes(w.t, event, t') && (event.Created? ==> event.e !in w.created)
    ensures var w := worlds[|events|];
      var next := Remembering(w, event, t');
      && Run(worlds + [next], events + [event]) && next.t == t'
      && next.created == w.created + CreatedIn([event])
  {
    hide Changes, Initial;
    var longer, all := worlds + [Remembering(worlds[|events|], event, t')], events + [event];
    forall i | 0 <= i < |all| ensures Step(longer[i], all[i], longer[i + 1]) {
      if i < |events| {
        assert Step(worlds[i], events[i], worlds[i + 1]);
      }
    }
    assert [event][0] == event;
  }

  lemma FreshFront(events: seq<Event>, created: set<Id>)
    requires events != [] && FreshIn(events, created)
    ensures var n := |events| - 1;
      && FreshIn(events[..n], created)
      && (events[n].Created? ==> events[n].e !in created + CreatedIn(events[..n]))
  {
    var n := |events| - 1;
    forall i | 0 <= i < n && events[..n][i].Created?
      ensures events[..n][i].e !in created + CreatedIn(events[..n][..i])
    {
      assert events[..n][..i] == events[..i];
    }
  }

  lemma CreatedNext(events: seq<Event>, event: Event)
    ensures CreatedIn(events + [event]) == CreatedIn(events) + CreatedIn([event])
  {
  }
}
