/** Which entities a traversal returns and in which order, counted on rows and
    relations alone. */
module TraversalRanking {
  import opened Sequences
  import opened StableSorting
  import opened GraphTables
  import opened Traversal
  import opened TraversalLimits

  /** How many ends of relations an entity is; a relation from it to itself has two. */
  function EndsAt(relations: seq<Relation>, e: Id): nat {
    if relations == [] then 0
    else
      var r := relations[|relations| - 1];
      EndsAt(relations[..|relations| - 1], e) + (if r.source == e then 1 else 0) + if r.target == e then 1 else 0
  }

  lemma {:induction false} DegreeIsEnds(relations: seq<Relation>, e: Id)
    ensures |Keep(LeavesFrom(e), relations)| + |Keep(ArrivesAt(e), relations)| == EndsAt(relations, e)
  {
    if relations == [] {
    } else {
      var n := |relations| - 1;
      assert relations == relations[..n] + [relations[n]];
      DegreeIsEnds(relations[..n], e);
      KeepAppend(LeavesFrom(e), relations[..n], relations[n]);
      KeepAppend(ArrivesAt(e), relations[..n], relations[n]);
    }
  }

  /** The rows before row i whose candidate is at hop h. */
  ghost function RowsAtHop(hops: map<Id, nat>, candidates: seq<Id>, h: nat, i: nat): set<int>
    requires i <= |candidates| && forall e :: e in candidates ==> e in hops
  {
    set j | 0 <= j < i && hops[candidates[j]] == h
  }

  /** Candidate i has fewer than perHop candidates of its hop before it. */
  ghost predicate AmongFirst(perHop: nat, hops: map<Id, nat>, candidates: seq<Id>, i: nat)
    requires i < |candidates| && forall e :: e in candidates ==> e in hops
  {
    |RowsAtHop(hops, candidates, hops[candidates[i]], i)| < perHop
  }

  lemma RowsNext(hops: map<Id, nat>, candidates: seq<Id>, h: nat, i: nat)
    requires i < |candidates| && forall e :: e in candidates ==> e in hops
    ensures |RowsAtHop(hops, candidates, h, i + 1)|
         == |RowsAtHop(hops, candidates, h, i)| + if hops[candidates[i]] == h then 1 else 0
  {
    var before := RowsAtHop(hops, candidates, h, i);
    assert RowsAtHop(hops, candidates, h, i + 1) == before + if hops[candidates[i]] == h then {i as int} else {};
    assert i !in before;
  }

  lemma {:induction false} CountKept(hops: map<Id, nat>, candidates: seq<Id>, h: nat, i: nat)
    requires i <= |candidates| && forall e :: e in candidates ==> e in hops
    ensures |Keep(AtHop(hops, h), candidates[..i])| == |RowsAtHop(hops, candidates, h, i)|
  {
    if i == 0 {
    } else {
      CountKept(hops, candidates, h, i - 1);
      assert candidates[..i] == candidates[..i - 1] + [candidates[i - 1]];
      KeepAppend(AtHop(hops, h), candidates[..i - 1], candidates[i - 1]);
      hide Keep, RowsAtHop;
      RowsNext(hops, candidates, h, i - 1);
    }
  }

  /** Among the first of its hop, by counting rows. */
  lemma EarlyIsAmongFirst(limits: Limits, hops: map<Id, nat>, candidates: seq<Id>, i: nat)
    requires Distinct(candidates) && i < |candidates| && forall e :: e in candidates ==> e in hops
    ensures EarlyInHop(limits, hops, candidates, candidates[i]) <==> AmongFirst(limits.perHop, hops, candidates, i)
  {
    var e, h := candidates[i], hops[candidates[i]];
    var front, back, all := candidates[..i], candidates[i + 1..], Keep(AtHop(hops, h), candidates);
    assert candidates == front + [e] + back;
    KeepConcat(AtHop(hops, h), front + [e], back);
    KeepAppend(AtHop(hops, h), front, e);
    CountKept(hops, candidates, h, i);
    var k := |Keep(AtHop(hops, h), front)|;
    KeepIsDistinct(AtHop(hops, h), candidates);
    hide Keep, AtHop, RowsAtHop;
    assert all[k] == e;
    if e in Take(all, limits.perHop) {
      var l :| 0 <= l < |Take(all, limits.perHop)| && Take(all, limits.perHop)[l] == e;
      assert all[l] == e && l == k;
    }
    if k < limits.perHop {
      assert Take(all, limits.perHop)[k] == e;
    }
  }

  /** Nearer, or as near and with at least as many ends of relations. */
  predicate AtLeastAsGood(g: Graph, hops: map<Id, nat>, x: Id, y: Id)
    requires x in hops && y in hops
  {
    hops[x] < hops[y] || (hops[x] == hops[y] && EndsAt(g.relations, x) >= EndsAt(g.relations, y))
  }

  lemma RankIsGood(g: Graph, hops: map<Id, nat>, x: Id, y: Id)
    requires x in hops && y in hops
    ensures !Less(ByHopAndDegree(g, hops)(y), ByHopAndDegree(g, hops)(x)) <==> AtLeastAsGood(g, hops, x, y)
  {
    DegreeIsEnds(g.relations, x);
    DegreeIsEnds(g.relations, y);
  }

  /** What is kept comes in order of hop and then of connections; everything kept is among the first perHop rows of
      its hop; and of those rows only the total cap drops any, none of them better than one that is kept. */
  lemma BestAreKept(g: Graph, limits: Limits, hops: map<Id, nat>, candidates: seq<Id>, kept: seq<Id>)
    requires KeptWell(g, limits, hops, candidates, kept)
    requires Distinct(candidates) && forall e :: e in candidates ==> e in hops
    ensures Distinct(kept) && |kept| <= limits.total && forall e :: e in kept ==> e in hops
    ensures forall i, j :: 0 <= i < j < |kept| ==> AtLeastAsGood(g, hops, kept[i], kept[j])
    ensures forall e :: e in kept ==>
      exists i :: 0 <= i < |candidates| && candidates[i] == e && AmongFirst(limits.perHop, hops, candidates, i)
    ensures forall i :: 0 <= i < |candidates| && candidates[i] !in kept ==>
      AmongFirst(limits.perHop, hops, candidates, i) ==>
        |kept| == limits.total && forall x :: x in kept ==> AtLeastAsGood(g, hops, x, candidates[i])
  {
    hide Keep, Quota, AmongFirst, EarlyInHop, AtLeastAsGood, ByHopAndDegree, Less;
    forall i, j | 0 <= i < j < |kept| ensures AtLeastAsGood(g, hops, kept[i], kept[j]) {
      RankIsGood(g, hops, kept[i], kept[j]);
    }
    forall e | e in kept
      ensures exists i :: 0 <= i < |candidates| && candidates[i] == e && AmongFirst(limits.perHop, hops, candidates, i)
    {
      var i :| 0 <= i < |candidates| && candidates[i] == e;
      EarlyIsAmongFirst(limits, hops, candidates, i);
    }
    forall i | 0 <= i < |candidates| && AmongFirst(limits.perHop, hops, candidates, i) && candidates[i] !in kept
      ensures |kept| == limits.total && forall x :: x in kept ==> AtLeastAsGood(g, hops, x, candidates[i])
    {
      EarlyIsAmongFirst(limits, hops, candidates, i);
      forall x | x in kept ensures AtLeastAsGood(g, hops, x, candidates[i]) {
        RankIsGood(g, hops, x, candidates[i]);
      }
    }
  }

  /** The relations returned run between entities returned or seeds, at least one of them no seed. */
  lemma RelationsBetweenKept(kept: seq<Id>, seeds: seq<Id>, q: Relation)
    ensures Connects(kept, Members(kept) + Members(seeds), q)
       <==> && (q.source in kept || q.source in seeds) && (q.target in kept || q.target in seeds)
            && (q.source in kept || q.target in kept)
  {
  }

  // ---- The order of the relations ----

  /** The place in kept of the first entity that is an end of q, or the number of kept entities. */
  function FirstEnd(kept: seq<Id>, q: Relation): (k: nat)
    ensures k <= |kept|
  {
    if kept == [] then 0
    else
      var n := |kept| - 1;
      var k := FirstEnd(kept[..n], q);
      if k < n || q.source == kept[n] || q.target == kept[n] then k else n + 1
  }

  predicate InTableBefore(rows: seq<Relation>, q: Relation, r: Relation) {
    exists i, j | 0 <= i < j < |rows| :: rows[i] == q && rows[j] == r
  }

  /** q is come across before r: for an entity kept earlier, or for the same one and then first what starts there,
      in the order of the table. */
  ghost predicate ComesBefore(g: Graph, kept: seq<Id>, q: Relation, r: Relation) {
    var a, b := FirstEnd(kept, q), FirstEnd(kept, r);
    || a < b
    || (a == b < |kept|
        && ((q.source == kept[a] && r.source != kept[a])
            || ((q.source == kept[a] <==> r.source == kept[a]) && InTableBefore(g.relations, q, r))))
  }

  function TableFirst(rows: seq<Relation>): (Relation, Relation) -> bool {
    (q: Relation, r: Relation) => InTableBefore(rows, q, r)
  }

  function IsNewTo(s: seq<Relation>): Relation -> bool { (r: Relation) => r.id !in Image(RelationId, s) }

  lemma {:induction false} FirstsConcat(s: seq<Relation>, t: seq<Relation>)
    requires Distinct(Image(RelationId, t))
    ensures FirstPerKey(RelationId, s + t) == FirstPerKey(RelationId, s) + Keep(IsNewTo(s), t)
  {
    hide *;
    if t == [] {
      assert s + t == s;
      NoneNew(s);
    } else {
      var n := |t| - 1;
      assert t == t[..n] + [t[n]] && s + t == s + t[..n] + [t[n]];
      LastIsNew(RelationId, t, n);
      FirstsConcat(s, t[..n]);
      FirstsNext(RelationId, s + t[..n], t[n]);
      ImageConcat(RelationId, s, t[..n]);
      KeepAppend(IsNewTo(s), t[..n], t[n]);
      IsNewToIs(s, t[n]);
      var kept := Keep(IsNewTo(s), t[..n]);
      assert kept + [] == kept;
    }
  }

  lemma NoneNew(s: seq<Relation>)
    ensures FirstPerKey(RelationId, s) + Keep(IsNewTo(s), []) == FirstPerKey(RelationId, s)
  {
  }

  lemma IsNewToIs(s: seq<Relation>, r: Relation)
    ensures IsNewTo(s)(r) <==> RelationId(r) !in Image(RelationId, s)
  {
  }

  lemma {:induction false} EndsAmong(kept: seq<Id>, q: Relation)
    ensures FirstEnd(kept, q) < |kept| <==> q.source in kept || q.target in kept
    ensures FirstEnd(kept, q) < |kept| ==> q.source == kept[FirstEnd(kept, q)] || q.target == kept[FirstEnd(kept, q)]
  {
    if kept == [] {
    } else {
      var n := |kept| - 1;
      assert kept == kept[..n] + [kept[n]];
      EndsAmong(kept[..n], q);
    }
  }

  /** What an entity adds: the relations it starts that are not there yet, then those it ends. */
  lemma BlocksOf(g: Graph, kept: seq<Id>, scope: set<Id>) returns (starts: seq<Relation>, ends: seq<Relation>)
    requires EndsExist(g) && kept != [] && Members(kept) <= scope
    ensures FirstPerKey(RelationId, Offered(g, kept, scope))
         == FirstPerKey(RelationId, Offered(g, kept[..|kept| - 1], scope)) + starts + ends
    ensures RunsBy(TableFirst(g.relations), starts) && RunsBy(TableFirst(g.relations), ends)
    ensures forall q :: q in starts ==> q.source == kept[|kept| - 1] && FirstEnd(kept, q) == |kept| - 1
    ensures forall q :: q in ends ==> q.source != kept[|kept| - 1] && FirstEnd(kept, q) == |kept| - 1
  {
    hide *;
    var n := |kept| - 1;
    var e, before := kept[n], Offered(g, kept[..n], scope);
    var leaving := Keep(HasOther(Target, scope), Keep(LeavesFrom(e), g.relations));
    var arriving := Keep(HasOther(Source, scope), Keep(ArrivesAt(e), g.relations));
    OfferedByNext(g, kept, scope);
    IdsOfKept(g, LeavesFrom(e), HasOther(Target, scope));
    IdsOfKept(g, ArrivesAt(e), HasOther(Source, scope));
    FirstsConcat(before, leaving);
    FirstsConcat(before + leaving, arriving);
    starts, ends := Keep(IsNewTo(before), leaving), Keep(IsNewTo(before + leaving), arriving);
    KeepRuns(TableFirst(g.relations), IsNewTo(before), leaving);
    KeepRuns(TableFirst(g.relations), IsNewTo(before + leaving), arriving);
    forall q | q in starts ensures q.source == e && FirstEnd(kept, q) == n {
      OfferedByOne(g, e, scope, q);
      NewStart(g, kept, scope, q);
    }
    forall q | q in ends ensures q.source != e && FirstEnd(kept, q) == n {
      OfferedByOne(g, e, scope, q);
      NewEnd(g, kept, scope, q);
    }
  }

  lemma IdsOfKept(g: Graph, p: Relation -> bool, q: Relation -> bool)
    requires EndsExist(g)
    ensures Distinct(Image(RelationId, Keep(q, Keep(p, g.relations))))
    ensures RunsBy(TableFirst(g.relations), Keep(q, Keep(p, g.relations)))
  {
    KeepKeepsDistinct(p, RelationId, g.relations);
    KeepKeepsDistinct(q, RelationId, Keep(p, g.relations));
    TableInOrder(g.relations);
    hide RunsBy, Keep, Distinct;
    KeepRuns(TableFirst(g.relations), p, g.relations);
    KeepRuns(TableFirst(g.relations), q, Keep(p, g.relations));
  }

  lemma TableInOrder(rows: seq<Relation>)
    ensures RunsBy(TableFirst(rows), rows)
  {
  }

  lemma NotNew(s: seq<Relation>, q: Relation)
    ensures q in s ==> !IsNewTo(s)(q)
  {
    if q in s {
      var i :| 0 <= i < |s| && s[i] == q;
      assert Image(RelationId, s)[i] == q.id;
    }
  }

  lemma NewStart(g: Graph, kept: seq<Id>, scope: set<Id>, q: Relation)
    requires kept != [] && Members(kept) <= scope && q in g.relations
    requires q.source == kept[|kept| - 1] && q.target in scope && IsNewTo(Offered(g, kept[..|kept| - 1], scope))(q)
    ensures FirstEnd(kept, q) == |kept| - 1
  {
    hide Offered, IsNewTo;
    NotNew(Offered(g, kept[..|kept| - 1], scope), q);
    NotOffered(g, kept, scope, q);
  }

  lemma NewEnd(g: Graph, kept: seq<Id>, scope: set<Id>, q: Relation)
    requires kept != [] && Members(kept) <= scope && q in g.relations
    requires q.target == kept[|kept| - 1] && q.source in scope
    requires var e := kept[|kept| - 1];
      IsNewTo(Offered(g, kept[..|kept| - 1], scope)
              + Keep(HasOther(Target, scope), Keep(LeavesFrom(e), g.relations)))(q)
    ensures q.source != kept[|kept| - 1] && FirstEnd(kept, q) == |kept| - 1
  {
    hide Offered, IsNewTo, Keep;
    var e, before := kept[|kept| - 1], Offered(g, kept[..|kept| - 1], scope);
    NotNew(before + Keep(HasOther(Target, scope), Keep(LeavesFrom(e), g.relations)), q);
    OfferedByOne(g, e, scope, q);
    assert e in Members(kept);
    NotOffered(g, kept, scope, q);
  }

  lemma NotOffered(g: Graph, kept: seq<Id>, scope: set<Id>, q: Relation)
    requires kept != [] && Members(kept) <= scope && q in g.relations
    requires q.source == kept[|kept| - 1] || q.target == kept[|kept| - 1]
    requires q.source in scope && q.target in scope && q !in Offered(g, kept[..|kept| - 1], scope)
    ensures FirstEnd(kept, q) == |kept| - 1
  {
    hide Offered;
    var n := |kept| - 1;
    OfferedExactly(g, kept[..n], scope, q);
    EndsAmong(kept[..n], q);
  }

  lemma FewerMembers(kept: seq<Id>, n: nat, scope: set<Id>)
    requires n <= |kept| && Members(kept) <= scope
    ensures Members(kept[..n]) <= scope
  {
    assert forall e :: e in kept[..n] ==> e in kept;
    assert forall e :: e in kept ==> e in Members(kept);
  }

  lemma ConnectsTouches(kept: seq<Id>, scope: set<Id>, q: Relation)
    ensures Connects(kept, scope, q) ==> q.source in kept || q.target in kept
  {
  }

  lemma EarlyStays(g: Graph, kept: seq<Id>, q: Relation, r: Relation)
    requires kept != [] && FirstEnd(kept[..|kept| - 1], q) < |kept| - 1 && FirstEnd(kept[..|kept| - 1], r) < |kept| - 1
    requires ComesBefore(g, kept[..|kept| - 1], q, r)
    ensures ComesBefore(g, kept, q, r)
  {
    hide InTableBefore;
  }

  lemma EarlierEnd(g: Graph, kept: seq<Id>, q: Relation, r: Relation)
    requires kept != [] && FirstEnd(kept[..|kept| - 1], q) < |kept| - 1 == FirstEnd(kept, r)
    ensures ComesBefore(g, kept, q, r)
  {
    hide InTableBefore;
  }

  lemma SameEnd(g: Graph, kept: seq<Id>, q: Relation, r: Relation)
    requires kept != [] && FirstEnd(kept, q) == FirstEnd(kept, r) == |kept| - 1
    requires var e := kept[|kept| - 1];
      || (q.source == e && r.source != e)
      || ((q.source == e <==> r.source == e) && InTableBefore(g.relations, q, r))
    ensures ComesBefore(g, kept, q, r)
  {
    hide InTableBefore, FirstEnd;
  }

  lemma InTableAt(rows: seq<Relation>, s: seq<Relation>, i: nat, j: nat)
    requires RunsBy(TableFirst(rows), s) && i < j < |s|
    ensures InTableBefore(rows, s[i], s[j])
  {
    hide InTableBefore;
  }

  ghost predicate InOrder(g: Graph, kept: seq<Id>, s: seq<Relation>) {
    forall i, j :: 0 <= i < j < |s| ==> ComesBefore(g, kept, s[i], s[j])
  }

  lemma InOrderConcat(g: Graph, kept: seq<Id>, a: seq<Relation>, b: seq<Relation>)
    requires InOrder(g, kept, a) && InOrder(g, kept, b)
    requires forall q, r :: q in a && r in b ==> ComesBefore(g, kept, q, r)
    ensures InOrder(g, kept, a + b)
  {
    hide ComesBefore;
  }

  lemma EarlyInOrder(g: Graph, kept: seq<Id>, before: seq<Relation>)
    requires kept != [] && InOrder(g, kept[..|kept| - 1], before)
    requires forall q :: q in before ==> FirstEnd(kept[..|kept| - 1], q) < |kept| - 1
    ensures InOrder(g, kept, before)
  {
    hide ComesBefore, FirstEnd;
    forall i, j | 0 <= i < j < |before| ensures ComesBefore(g, kept, before[i], before[j]) {
      assert before[i] in before && before[j] in before;
      EarlyStays(g, kept, before[i], before[j]);
    }
  }

  lemma BlockInOrder(g: Graph, kept: seq<Id>, block: seq<Relation>, starts: bool)
    requires kept != [] && RunsBy(TableFirst(g.relations), block)
    requires forall q :: q in block ==>
      (q.source == kept[|kept| - 1] <==> starts) && FirstEnd(kept, q) == |kept| - 1
    ensures InOrder(g, kept, block)
  {
    hide ComesBefore, FirstEnd, RunsBy;
    forall i, j | 0 <= i < j < |block| ensures ComesBefore(g, kept, block[i], block[j]) {
      assert block[i] in block && block[j] in block;
      InTableAt(g.relations, block, i, j);
      SameEnd(g, kept, block[i], block[j]);
    }
  }

  lemma InOrderTogether(g: Graph, kept: seq<Id>, before: seq<Relation>, starts: seq<Relation>, ends: seq<Relation>)
    requires kept != [] && InOrder(g, kept[..|kept| - 1], before)
    requires forall q :: q in before ==> FirstEnd(kept[..|kept| - 1], q) < |kept| - 1
    requires RunsBy(TableFirst(g.relations), starts) && RunsBy(TableFirst(g.relations), ends)
    requires forall q :: q in starts ==> q.source == kept[|kept| - 1] && FirstEnd(kept, q) == |kept| - 1
    requires forall q :: q in ends ==> q.source != kept[|kept| - 1] && FirstEnd(kept, q) == |kept| - 1
    ensures InOrder(g, kept, before + starts + ends)
  {
    hide *;
    EarlyInOrder(g, kept, before);
    BlockInOrder(g, kept, starts, true);
    BlockInOrder(g, kept, ends, false);
    forall q, r | q in before && r in starts ensures ComesBefore(g, kept, q, r) {
      EarlierEnd(g, kept, q, r);
    }
    InOrderConcat(g, kept, before, starts);
    forall q, r | q in before + starts && r in ends ensures ComesBefore(g, kept, q, r) {
      if q in before {
        EarlierEnd(g, kept, q, r);
      } else {
        SameEnd(g, kept, q, r);
      }
    }
    InOrderConcat(g, kept, before + starts, ends);
  }

  /** The relations of a traversal stand in the order in which its loops come across them. */
  lemma {:induction false} RelationsInOrder(g: Graph, kept: seq<Id>, scope: set<Id>)
    requires EndsExist(g) && Members(kept) <= scope
    ensures InOrder(g, kept, FirstPerKey(RelationId, Offered(g, kept, scope)))
  {
    hide *;
    NothingOffered(g, scope);
    NothingFrom(Target, scope, []);
    if kept == [] {
      NothingInOrder(g, kept);
    } else {
      var n := |kept| - 1;
      var before := FirstPerKey(RelationId, Offered(g, kept[..n], scope));
      FewerMembers(kept, n, scope);
      RelationsInOrder(g, kept[..n], scope);
      var starts, ends := BlocksOf(g, kept, scope);
      forall q | q in before ensures FirstEnd(kept[..n], q) < n {
        FirstPerKeyKeys(RelationId, Offered(g, kept[..n], scope));
        OfferedExactly(g, kept[..n], scope, q);
        ConnectsTouches(kept[..n], scope, q);
        EndsAmong(kept[..n], q);
      }
      InOrderTogether(g, kept, before, starts, ends);
    }
  }

  lemma NothingInOrder(g: Graph, kept: seq<Id>)
    ensures InOrder(g, kept, [])
  {
  }
}
