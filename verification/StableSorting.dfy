/** The stable sort the source relies on: list.sort with a key of up to two
    integers, compared lexicographically. */
module StableSorting {
  import opened Sequences

  type Rank = (int, int)

  predicate Less(a: Rank, b: Rank) { a.0 < b.0 || (a.0 == b.0 && a.1 < b.1) }

  ghost predicate Sorted<A>(key: A -> Rank, s: seq<A>) {
    forall i, j :: 0 <= i < j < |s| ==> !Less(key(s[j]), key(s[i]))
  }

  /** Put x behind everything whose key is not larger. */
  function Insert<A>(key: A -> Rank, x: A, s: seq<A>): (r: seq<A>)
    ensures |r| == |s| + 1
  {
    if s == [] then [x]
    else
      var n := |s| - 1;
      if Less(key(x), key(s[n])) then Insert(key, x, s[..n]) + [s[n]] else s + [x]
  }

  function StableSort<A>(key: A -> Rank, s: seq<A>): (r: seq<A>)
    ensures |r| == |s|
  {
    if s == [] then [] else Insert(key, s[|s| - 1], StableSort(key, s[..|s| - 1]))
  }

  lemma {:induction false} InsertPermutes<A(!new)>(key: A -> Rank, x: A, s: seq<A>)
    ensures Permutation(s + [x], Insert(key, x, s))
    ensures forall y :: y in Insert(key, x, s) <==> y == x || y in s
  {
    if s == [] {
    } else {
      var n := |s| - 1;
      assert s == s[..n] + [s[n]];
      if Less(key(x), key(s[n])) {
        InsertPermutes(key, x, s[..n]);
      }
    }
  }

  lemma {:induction false} InsertSorts<A(!new)>(key: A -> Rank, x: A, s: seq<A>)
    requires Sorted(key, s)
    ensures Sorted(key, Insert(key, x, s))
  {
    if s == [] {
    } else {
      var n := |s| - 1;
      if Less(key(x), key(s[n])) {
        InsertSorts(key, x, s[..n]);
        InsertPermutes(key, x, s[..n]);
        var front := Insert(key, x, s[..n]);
        forall i | 0 <= i < |front| ensures !Less(key(s[n]), key(front[i])) {
          assert front[i] in front;
        }
      } else {
        forall i | 0 <= i < n ensures !Less(key(x), key(s[i])) {
          assert !Less(key(s[n]), key(s[i]));
        }
      }
    }
  }

  lemma {:induction false} StableSortSorts<A(!new)>(key: A -> Rank, s: seq<A>)
    ensures Sorted(key, StableSort(key, s))
    ensures Permutation(s, StableSort(key, s))
    ensures forall y :: y in StableSort(key, s) <==> y in s
  {
    if s == [] {
    } else {
      var n := |s| - 1;
      assert s == s[..n] + [s[n]];
      StableSortSorts(key, s[..n]);
      InsertSorts(key, s[n], StableSort(key, s[..n]));
      InsertPermutes(key, s[n], StableSort(key, s[..n]));
    }
  }

  function HasRank<A>(key: A -> Rank, rank: Rank): A -> bool { (x: A) => key(x) == rank }

  /** Elements that rank alike keep their order. */
  lemma {:induction false} StableSortIsStable<A(!new)>(key: A -> Rank, s: seq<A>, rank: Rank)
    ensures Keep(HasRank(key, rank), StableSort(key, s)) == Keep(HasRank(key, rank), s)
  {
    if s == [] {
    } else {
      var n := |s| - 1;
      StableSortIsStable(key, s[..n], rank);
      StableSortSorts(key, s[..n]);
      InsertIsStable(key, s[n], StableSort(key, s[..n]), rank);
    }
  }

  lemma {:induction false} InsertIsStable<A(!new)>(key: A -> Rank, x: A, s: seq<A>, rank: Rank)
    requires Sorted(key, s)
    ensures Keep(HasRank(key, rank), Insert(key, x, s)) == Keep(HasRank(key, rank), s + [x])
  {
    if s == [] || !Less(key(x), key(s[|s| - 1])) {
    } else {
      var n := |s| - 1;
      InsertIsStable(key, x, s[..n], rank);
      KeepAppend(HasRank(key, rank), Insert(key, x, s[..n]), s[n]);
      KeepSwaps(HasRank(key, rank), s[..n], x, s[n]);
      assert s[..n] + [s[n]] == s;
    }
  }

  lemma KeepSwaps<A(!new)>(p: A -> bool, s: seq<A>, x: A, y: A)
    requires !p(x) || !p(y)
    ensures Keep(p, s + [x]) + (if p(y) then [y] else []) == Keep(p, s + [y] + [x])
  {
    KeepAppend(p, s, x);
    KeepAppend(p, s, y);
    KeepAppend(p, s + [y], x);
    hide *;
    var kept := Keep(p, s);
    assert kept + [] == kept && kept + [x] + [] == kept + [x] && kept + [y] + [] == kept + [y];
  }

  /** Sorting what is already in order changes nothing. */
  lemma {:induction false} SortOfSorted<A>(key: A -> Rank, s: seq<A>)
    requires Sorted(key, s)
    ensures StableSort(key, s) == s
  {
    if s == [] {
    } else {
      var n := |s| - 1;
      SortOfSorted(key, s[..n]);
      assert s == s[..n] + [s[n]];
    }
  }
}
