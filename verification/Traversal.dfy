/** Walking the knowledge graph from seed entities: the recursive query as an
    iterated work table, checked against shortest undirected distances. */
module Traversal {
  import opened GraphTables

  datatype Graph = Graph(entities: set<Id>, relations: seq<Relation>)

  /** One row of the recursive query. */
  datatype Visit = Visit(entity: Id, hop: nat)

  predicate Joins(r: Relation, e: Id) { r.source == e || r.target == e }

  function OtherEnd(r: Relation, e: Id): Id { if r.source == e then r.target else r.source }

  // ---- Distances, independently of the query ----

  ghost predicate Adjacent(g: Graph, u: Id, v: Id) {
    exists r :: r in g.relations && ((r.source == u && r.target == v) || (r.source == v && r.target == u))
  }

  ghost predicate IsWalk(g: Graph, p: seq<Id>) {
    forall i :: 0 <= i < |p| - 1 ==> Adjacent(g, p[i], p[i + 1])
  }

  /** An existing seed reaches v along exactly n relations, taken in either direction. */
  ghost predicate Reaches(g: Graph, seeds: seq<Id>, v: Id, n: nat) {
    exists p: seq<Id> :: |p| == n + 1 && p[0] in seeds && p[0] in g.entities && p[n] == v && IsWalk(g, p)
  }

  /** The shortest walk from an existing seed to v has length n. */
  ghost predicate Distance(g: Graph, seeds: seq<Id>, v: Id, n: nat) {
    Reaches(g, seeds, v, n) && forall m: nat :: m < n ==> !Reaches(g, seeds, v, m)
  }

  lemma ReachesNext(g: Graph, seeds: seq<Id>, v: Id, n: nat)
    ensures Reaches(g, seeds, v, n + 1) <==> exists u :: Reaches(g, seeds, u, n) && Adjacent(g, u, v)
  {
    if p: seq<Id> :| |p| == n + 2 && p[0] in seeds && p[0] in g.entities && p[n + 1] == v && IsWalk(g, p) {
      var q := p[..n + 1];
      assert IsWalk(g, q) && |q| == n + 1 && q[0] == p[0] && q[n] == p[n];
      assert Reaches(g, seeds, p[n], n);
      assert Adjacent(g, p[n], p[n + 1]);
    }
    if u :| Reaches(g, seeds, u, n) && Adjacent(g, u, v) {
      var p: seq<Id> :| |p| == n + 1 && p[0] in seeds && p[0] in g.entities && p[n] == u && IsWalk(g, p);
      var q := p + [v];
      forall i | 0 <= i < |q| - 1 ensures Adjacent(g, q[i], q[i + 1]) {
        if i < n {
          assert Adjacent(g, p[i], p[i + 1]);
        }
      }
      assert |q| == n + 2 && q[0] == p[0] && q[n + 1] == v && IsWalk(g, q);
    }
  }

  lemma ReachesStart(g: Graph, seeds: seq<Id>, v: Id)
    ensures Reaches(g, seeds, v, 0) <==> v in seeds && v in g.entities
  {
    if v in seeds && v in g.entities {
      assert |[v]| == 1 && [v][0] == v && IsWalk(g, [v]);
    }
  }

  /** Once no walk has some length, none is longer. */
  lemma {:induction false} NoLongerWalks(g: Graph, seeds: seq<Id>, m: nat, n: nat)
    requires m <= n && forall v :: !Reaches(g, seeds, v, m)
    ensures forall v :: !Reaches(g, seeds, v, n)
    decreases n - m
  {
    if m >= n {
    } else {
      var next := m + 1;
      forall v ensures !Reaches(g, seeds, v, next) {
        ReachesNext(g, seeds, v, m);
      }
      NoLongerWalks(g, seeds, m + 1, n);
    }
  }

  // ---- The recursive query ----

  function Limit(maxHops: int): nat { if maxHops < 0 then 0 else maxHops }

  /** The rows one round of the recursive term derives from the work table. */
  function Derived(g: Graph, work: set<Visit>, maxHops: int): set<Visit> {
    set t, r | t in work && r in g.relations && Joins(r, t.entity) && t.hop < maxHops
      :: Visit(OtherEnd(r, t.entity), t.hop + 1)
  }

  /** Everything reachable in at most k steps, at every walk length. */
  ghost predicate Complete(g: Graph, seeds: seq<Id>, rows: set<Visit>, low: nat, k: int) {
    forall v, h: nat :: Visit(v, h) in rows <==> low <= h <= k && Reaches(g, seeds, v, h)
  }

  lemma DerivedIsNextLevel(g: Graph, seeds: seq<Id>, work: set<Visit>, k: nat, maxHops: int)
    requires Complete(g, seeds, work, k, k) && k < maxHops
    ensures Complete(g, seeds, Derived(g, work, maxHops), k + 1, k + 1)
  {
    var next := Derived(g, work, maxHops);
    forall v, h: nat ensures Visit(v, h) in next <==> h == k + 1 && Reaches(g, seeds, v, h) {
      ReachesNext(g, seeds, v, k);
      if Visit(v, h) in next {
        var t, r :| t in work && r in g.relations && Joins(r, t.entity)
          && Visit(v, h) == Visit(OtherEnd(r, t.entity), t.hop + 1);
        assert Visit(t.entity, t.hop) in work;
        assert Adjacent(g, t.entity, v);
      }
      if h == k + 1 && Reaches(g, seeds, v, h) {
        var u :| Reaches(g, seeds, u, k) && Adjacent(g, u, v);
        assert Visit(u, k) in work;
        var r :| r in g.relations && ((r.source == u && r.target == v) || (r.source == v && r.target == u));
        assert OtherEnd(r, u) == v;
      }
    }
  }

  /** WITH RECURSIVE ... UNION: the work table is replaced by its new derived rows until empty. */
  method RunQuery(g: Graph, seeds: seq<Id>, maxHops: int) returns (rows: set<Visit>)
    ensures Complete(g, seeds, rows, 0, Limit(maxHops))
  {
    var work := set e | e in g.entities && e in seeds :: Visit(e, 0);
    rows := work;
    ghost var k := 0;
    forall v ensures Reaches(g, seeds, v, 0) <==> v in seeds && v in g.entities {
      ReachesStart(g, seeds, v);
    }
    while work != {}
      invariant 0 <= k <= Limit(maxHops) + 1
      invariant k <= Limit(maxHops) ==> Complete(g, seeds, work, k, k) && Complete(g, seeds, rows, 0, k)
      invariant k > Limit(maxHops) ==> work == {} && Complete(g, seeds, rows, 0, Limit(maxHops))
      decreases Limit(maxHops) + 1 - k
    {
      var derived := Derived(g, work, maxHops);
      if k < maxHops {
        DerivedIsNextLevel(g, seeds, work, k, maxHops);
      } else {
        assert forall t | t in work :: t == Visit(t.entity, t.hop) && t.hop == k;
        assert derived == {};
      }
      work := derived - rows;
      rows := rows + work;
      k := k + 1;
    }
    if k <= Limit(maxHops) {
      forall v ensures !Reaches(g, seeds, v, k) {
        assert Visit(v, k) !in work;
      }
      forall v, h: nat | k <= h ensures !Reaches(g, seeds, v, h) {
        NoLongerWalks(g, seeds, k, h);
      }
    }
  }

  /** SELECT entity_id, MIN(hop_distance) ... GROUP BY entity_id. */
  method NearestHops(rows: set<Visit>) returns (hops: map<Id, nat>)
    ensures forall v :: v in hops <==> exists h: nat :: Visit(v, h) in rows
    ensures forall v :: v in hops ==> Visit(v, hops[v]) in rows
    ensures forall t :: t in rows ==> t.entity in hops && hops[t.entity] <= t.hop
  {
    hops := map[];
    var rest := rows;
    while rest != {}
      invariant rest <= rows
      invariant forall v :: v in hops ==> Visit(v, hops[v]) in rows
      invariant forall t :: t in rows && t !in rest ==> t.entity in hops && hops[t.entity] <= t.hop
      decreases rest
    {
      var t :| t in rest;
      if t.entity !in hops || t.hop < hops[t.entity] {
        hops := hops[t.entity := t.hop];
      }
      rest := rest - {t};
    }
    forall v ensures v in hops <==> exists h: nat :: Visit(v, h) in rows {
      if h: nat :| Visit(v, h) in rows {
        assert Visit(v, h).entity in hops;
      }
    }
  }

  /** Exactly the entities within the hop limit, each at its distance. */
  ghost predicate IsHopMap(g: Graph, seeds: seq<Id>, maxHops: int, hops: map<Id, nat>) {
    forall v, d: nat :: (v in hops && hops[v] == d) <==> Distance(g, seeds, v, d) && d <= Limit(maxHops)
  }

  method HopDistances(g: Graph, seeds: seq<Id>, maxHops: int) returns (hops: map<Id, nat>)
    ensures IsHopMap(g, seeds, maxHops, hops)
  {
    var rows := RunQuery(g, seeds, maxHops);
    hops := NearestHops(rows);
    forall v, d: nat ensures (v in hops && hops[v] == d) <==> Distance(g, seeds, v, d) && d <= Limit(maxHops) {
      if v in hops && hops[v] == d {
        assert Visit(v, d) in rows;
        forall m: nat | m < d ensures !Reaches(g, seeds, v, m) {
          assert Visit(v, m) !in rows;
        }
      }
      if Distance(g, seeds, v, d) && d <= Limit(maxHops) {
        assert Visit(v, d) in rows;
        assert Visit(v, hops[v]) in rows;
      }
    }
  }
}
