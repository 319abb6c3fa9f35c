/** Sequence vocabulary shared by the other modules: images, order-preserving
    filters, first-occurrence de-duplication and stable sorting. */
module Sequences {

  datatype Option<+T> = None | Some(value: T)

  function Image<A, B>(f: A -> B, s: seq<A>): (r: seq<B>)
    ensures |r| == |s|
    ensures forall i :: 0 <= i < |s| ==> r[i] == f(s[i])
  {
    seq(|s|, i requires 0 <= i < |s| => f(s[i]))
  }

  predicate Distinct<A(==)>(s: seq<A>) {
    forall i, j :: 0 <= i < j < |s| ==> s[i] != s[j]
  }

  function Members<A(==)>(s: seq<A>): set<A> {
    set x | x in s
  }

  lemma MembersAppend<A>(s: seq<A>, x: A)
    ensures Members(s + [x]) == Members(s) + {x}
  {
  }

  /** The elements of s that satisfy p, in their original order. */
  function Keep<A(!new)>(p: A -> bool, s: seq<A>): (r: seq<A>)
    ensures forall x :: x in r <==> x in s && p(x)
    ensures |r| <= |s|
  {
    if s == [] then []
    else
      var n := |s| - 1;
      assert s == s[..n] + [s[n]];
      Keep(p, s[..n]) + (if p(s[n]) then [s[n]] else [])
  }

  lemma KeepAppend<A(!new)>(p: A -> bool, s: seq<A>, x: A)
    ensures Keep(p, s + [x]) == Keep(p, s) + if p(x) then [x] else []
  {
    assert (s + [x])[..|s|] == s;
  }

  lemma {:induction false} KeepConcat<A(!new)>(p: A -> bool, s: seq<A>, t: seq<A>)
    ensures Keep(p, s + t) == Keep(p, s) + Keep(p, t)
  {
    if t == [] {
      assert s + t == s;
    } else {
      var n := |t| - 1;
      assert s + t == s + t[..n] + [t[n]];
      assert t == t[..n] + [t[n]];
      KeepConcat(p, s, t[..n]);
      KeepAppend(p, s + t[..n], t[n]);
    }
  }

  lemma KeepNone<A(!new)>(p: A -> bool, s: seq<A>)
    requires forall x :: x in s ==> !p(x)
    ensures Keep(p, s) == []
  {
    if Keep(p, s) != [] {
      assert Keep(p, s)[0] in Keep(p, s);
    }
  }

  lemma {:induction false} KeepIsDistinct<A(!new)>(p: A -> bool, s: seq<A>)
    requires Distinct(s)
    ensures Distinct(Keep(p, s))
  {
    if s == [] {
    } else {
      KeepIsDistinct(p, s[..|s| - 1]);
    }
  }

  /** Each element comes before those behind it. */
  predicate RunsBy<A>(before: (A, A) -> bool, s: seq<A>) {
    forall i, j | 0 <= i < j < |s| :: before(s[i], s[j])
  }

  lemma RunsNext<A>(before: (A, A) -> bool, s: seq<A>, x: A)
    requires RunsBy(before, s) && forall y :: y in s ==> before(y, x)
    ensures RunsBy(before, s + [x])
  {
  }

  lemma {:induction false} KeepRuns<A(!new)>(before: (A, A) -> bool, p: A -> bool, s: seq<A>)
    requires RunsBy(before, s)
    ensures RunsBy(before, Keep(p, s))
  {
    if s == [] {
    } else {
      hide *;
      var n := |s| - 1;
      var front := Keep(p, s[..n]);
      assert s == s[..n] + [s[n]];
      KeepAppend(p, s[..n], s[n]);
      RunsFront(before, s[..n], [s[n]]);
      KeepRuns(before, p, s[..n]);
      forall x | x in front ensures before(x, s[n]) {
        RunsLast(before, s[..n], x, s[n]);
      }
      RunsNext(before, front, s[n]);
      assert front + [] == front;
    }
  }

  lemma {:induction false} RunsWithin<A(!new)>(before: (A, A) -> bool, p: A -> bool, s: seq<A>, i: nat, j: nat)
    requires RunsBy(before, Keep(p, s)) && i < j < |s| && p(s[i]) && p(s[j])
    ensures before(s[i], s[j])
  {
    hide *;
    var n := |s| - 1;
    var front := Keep(p, s[..n]);
    assert s == s[..n] + [s[n]];
    KeepAppend(p, s[..n], s[n]);
    if j < n {
      RunsFront(before, front, if p(s[n]) then [s[n]] else []);
      RunsWithin(before, p, s[..n], i, j);
    } else {
      assert s[..n][i] in front;
      RunsLast(before, front, s[i], s[n]);
    }
  }

  lemma RunsFront<A>(before: (A, A) -> bool, a: seq<A>, b: seq<A>)
    requires RunsBy(before, a + b)
    ensures RunsBy(before, a)
  {
    assert (a + b)[..|a|] == a;
  }

  lemma RunsLast<A>(before: (A, A) -> bool, a: seq<A>, x: A, y: A)
    requires RunsBy(before, a + [y]) && x in a
    ensures before(x, y)
  {
    var i :| 0 <= i < |a| && a[i] == x;
    assert (a + [y])[i] == x && (a + [y])[|a|] == y;
  }

  /** A distinct column is distinct without its last cell, and that cell is not in the rest. */
  lemma LastIsNew<A, B>(column: A -> B, s: seq<A>, n: nat)
    requires |s| == n + 1 && Distinct(Image(column, s))
    ensures Distinct(Image(column, s[..n])) && column(s[n]) !in Image(column, s[..n])
  {
    var cells := Image(column, s);
    assert Image(column, s[..n]) == cells[..n] && column(s[n]) == cells[n] && cells[n] !in cells[..n];
  }

  lemma DistinctAppend<A>(s: seq<A>, x: A)
    requires Distinct(s) && x !in s
    ensures Distinct(s + [x])
  {
  }

  lemma {:induction false} KeepKeepsDistinct<A(!new), B(!new)>(p: A -> bool, column: A -> B, s: seq<A>)
    requires Distinct(Image(column, s))
    ensures Distinct(Image(column, Keep(p, s)))
    ensures forall b :: b in Image(column, Keep(p, s)) ==> b in Image(column, s)
  {
    if s == [] {
    } else {
      hide *;
      var n := |s| - 1;
      assert s == s[..n] + [s[n]];
      LastIsNew(column, s, n);
      KeepKeepsDistinct(p, column, s[..n]);
      KeepAppend(p, s[..n], s[n]);
      ImageAppend(column, s[..n], s[n]);
      ImageAppend(column, Keep(p, s[..n]), s[n]);
      if p(s[n]) {
        DistinctAppend(Image(column, Keep(p, s[..n])), column(s[n]));
      } else {
        assert Keep(p, s[..n]) + [] == Keep(p, s[..n]);
      }
    }
  }

  lemma {:induction false} KeepAll<A(!new)>(p: A -> bool, s: seq<A>)
    requires forall x :: x in s ==> p(x)
    ensures Keep(p, s) == s
  {
    if s == [] {
    } else {
      hide *;
      var n := |s| - 1;
      assert s == s[..n] + [s[n]];
      KeepAll(p, s[..n]);
      KeepAppend(p, s[..n], s[n]);
    }
  }

  /** Row i survives exactly when no earlier row has the same key. */
  function FirstPerKey<A, K(==)>(key: A -> K, s: seq<A>): (r: seq<A>)
    ensures |r| <= |s|
  {
    if s == [] then []
    else
      var n := |s| - 1;
      var kept := FirstPerKey(key, s[..n]);
      if key(s[n]) in Image(key, s[..n]) then kept else kept + [s[n]]
  }

  lemma {:induction false} FirstPerKeyKeys<A(!new), K(!new)>(key: A -> K, s: seq<A>)
    ensures Distinct(Image(key, FirstPerKey(key, s)))
    ensures forall x :: x in FirstPerKey(key, s) ==> x in s
    ensures forall k :: k in Image(key, FirstPerKey(key, s)) <==> k in Image(key, s)
  {
    if s == [] {
    } else {
      var n := |s| - 1;
      var front := s[..n];
      FirstPerKeyKeys(key, front);
      assert s == front + [s[n]];
      ImageAppend(key, front, s[n]);
      ImageAppend(key, FirstPerKey(key, front), s[n]);
    }
  }

  lemma FirstsNext<A, K>(key: A -> K, s: seq<A>, row: A)
    ensures FirstPerKey(key, s + [row])
      == if key(row) in Image(key, s) then FirstPerKey(key, s) else FirstPerKey(key, s) + [row]
    ensures Image(key, s + [row]) == Image(key, s) + [key(row)]
  {
    assert (s + [row])[..|s|] == s;
  }

  /** kept holds the rows at some ascending positions. */
  ghost predicate PicksAt<A>(rows: seq<A>, kept: seq<A>, at: seq<nat>) {
    && |at| == |kept| && (forall k, l :: 0 <= k < l < |at| ==> at[k] < at[l])
    && forall k :: 0 <= k < |at| ==> at[k] < |rows| && kept[k] == rows[at[k]]
  }

  lemma PicksAtNext<A>(rows: seq<A>, n: nat, kept: seq<A>, before: seq<nat>)
    requires |rows| == n + 1 && PicksAt(rows[..n], kept, before)
    ensures PicksAt(rows, kept, before) && PicksAt(rows, kept + [rows[n]], before + [n])
    ensures n !in before && forall i :: i in before + [n] <==> i in before || i == n
  {
  }

  predicate IsFirst<A, K(==)>(key: A -> K, rows: seq<A>, i: nat)
    requires i < |rows|
  {
    forall j | 0 <= j < i :: key(rows[j]) != key(rows[i])
  }

  /** The rows kept stand where no earlier row has their key. */
  lemma {:induction false} FirstsStandAt<A(!new), K(!new)>(key: A -> K, rows: seq<A>) returns (at: seq<nat>)
    ensures PicksAt(rows, FirstPerKey(key, rows), at)
    ensures forall i: nat :: i < |rows| ==> (i in at <==> IsFirst(key, rows, i))
  {
    hide *;
    NothingStands(key);
    if rows == [] {
      at := [];
    } else {
      var n := |rows| - 1;
      var front := FirstsStandAt(key, rows[..n]);
      assert rows == rows[..n] + [rows[n]];
      FirstsNext(key, rows[..n], rows[n]);
      KeyIsNew(key, rows, n);
      PicksAtNext(rows, n, FirstPerKey(key, rows[..n]), front);
      at := if IsFirst(key, rows, n) then front + [n] else front;
      forall i: nat | i < |rows| ensures i in at <==> IsFirst(key, rows, i) {
        if i < n {
          FirstInFront(key, rows, n, i);
        }
      }
    }
  }

  lemma NothingStands<A, K>(key: A -> K)
    ensures PicksAt([], FirstPerKey(key, []), [])
  {
  }

  lemma FirstInFront<A, K>(key: A -> K, rows: seq<A>, n: nat, i: nat)
    requires i < n < |rows|
    ensures IsFirst(key, rows, i) <==> IsFirst(key, rows[..n], i)
  {
    assert forall j :: 0 <= j < n ==> rows[..n][j] == rows[j];
  }

  lemma KeyIsNew<A, K>(key: A -> K, rows: seq<A>, n: nat)
    requires n < |rows|
    ensures key(rows[n]) !in Image(key, rows[..n]) <==> IsFirst(key, rows, n)
  {
    var keys := Image(key, rows[..n]);
    assert forall j :: 0 <= j < n ==> keys[j] == key(rows[j]);
  }

  /** A column that identified rows before de-duplication still does after. */
  lemma {:induction false} FirstPerKeyKeepsDistinct<A, K, B(!new)>(key: A -> K, column: A -> B, s: seq<A>)
    requires Distinct(Image(column, s))
    ensures Distinct(Image(column, FirstPerKey(key, s)))
    ensures forall b :: b in Image(column, FirstPerKey(key, s)) ==> b in Image(column, s)
  {
    if s == [] {
    } else {
      var n := |s| - 1;
      var cells := Image(column, s);
      assert Image(column, s[..n]) == cells[..n];
      FirstPerKeyKeepsDistinct(key, column, s[..n]);
      ImageAppend(column, FirstPerKey(key, s[..n]), s[n]);
      assert column(s[n]) == cells[n] && cells[n] !in cells[..n];
    }
  }

  lemma ImageAppend<A, B>(f: A -> B, s: seq<A>, x: A)
    ensures Image(f, s + [x]) == Image(f, s) + [f(x)]
  {
  }

  lemma ImageConcat<A, B>(f: A -> B, s: seq<A>, t: seq<A>)
    ensures Image(f, s + t) == Image(f, s) + Image(f, t)
  {
  }

  /** De-duplicating rows whose keys already differ removes nothing. */
  lemma {:induction false} FirstPerKeyOfDistinct<A, K>(key: A -> K, s: seq<A>)
    requires Distinct(Image(key, s))
    ensures FirstPerKey(key, s) == s
  {
    if s == [] {
    } else {
      var n := |s| - 1;
      var front, keys := s[..n], Image(key, s);
      assert Image(key, front) == keys[..n];
      assert key(s[n]) == keys[n] && keys[n] !in keys[..n];
      FirstPerKeyOfDistinct(key, front);
      hide Distinct;
      assert s == front + [s[n]];
    }
  }

  function Flatten<A>(groups: seq<seq<A>>): seq<A> {
    if groups == [] then [] else Flatten(groups[..|groups| - 1]) + groups[|groups| - 1]
  }

  lemma FlattenAppend<A>(groups: seq<seq<A>>, group: seq<A>)
    ensures Flatten(groups + [group]) == Flatten(groups) + group
  {
    assert (groups + [group])[..|groups|] == groups;
  }

  /** t holds the same elements as s, each equally often. */
  ghost predicate Permutation<A>(s: seq<A>, t: seq<A>) {
    multiset(s) == multiset(t)
  }

  lemma PermutationMembers<A(!new)>(s: seq<A>, t: seq<A>)
    requires Permutation(s, t)
    ensures |s| == |t|
    ensures forall x :: x in s <==> x in t
  {
    assert |multiset(s)| == |multiset(t)|;
    forall x ensures x in s <==> x in t {
      assert x in s <==> x in multiset(s);
      assert x in t <==> x in multiset(t);
    }
  }

  lemma WithoutIndex<A>(t: seq<A>, j: nat)
    requires j < |t|
    ensures multiset(t) == multiset(t[..j] + t[j + 1..]) + multiset{t[j]}
  {
    assert t == t[..j] + [t[j]] + t[j + 1..];
  }

  /** Where the last element of s stands in its permutation t. */
  lemma MatchOfLast<A>(s: seq<A>, t: seq<A>) returns (j: nat)
    requires Permutation(s, t) && s != []
    ensures j < |t| && t[j] == s[|s| - 1]
    ensures Permutation(s[..|s| - 1], t[..j] + t[j + 1..])
  {
    var n := |s| - 1;
    WithoutIndex(s, n);
    assert s[..n] + s[n + 1..] == s[..n];
    assert s[n] in multiset(t);
    j :| 0 <= j < |t| && t[j] == s[n];
    WithoutIndex(t, j);
    assert multiset(t[..j] + t[j + 1..]) == multiset(s) - multiset{s[n]} == multiset(s[..n]);
  }

  lemma {:induction false} PermutationOfImages<A, B>(f: A -> B, s: seq<A>, t: seq<A>)
    requires Permutation(s, t)
    ensures Permutation(Image(f, s), Image(f, t))
  {
    if s == [] {
      assert |multiset(t)| == 0;
    } else {
      var n := |s| - 1;
      var j := MatchOfLast(s, t);
      PermutationOfImages(f, s[..n], t[..j] + t[j + 1..]);
      ImageWithoutIndex(f, s, n);
      assert Image(f, s[..n] + s[n + 1..]) == Image(f, s[..n]);
      ImageWithoutIndex(f, t, j);
    }
  }

  lemma ImageWithoutIndex<A, B>(f: A -> B, t: seq<A>, j: nat)
    requires j < |t|
    ensures multiset(Image(f, t)) == multiset(Image(f, t[..j] + t[j + 1..])) + multiset{f(t[j])}
  {
    var image := Image(f, t);
    WithoutIndex(image, j);
    assert image[..j] + image[j + 1..] == Image(f, t[..j] + t[j + 1..]);
  }

  lemma {:induction false} DistinctCounts<A(!new)>(s: seq<A>)
    ensures Distinct(s) <==> forall x :: multiset(s)[x] <= 1
  {
    if s == [] {
    } else {
      var n := |s| - 1;
      var x := s[n];
      DistinctCounts(s[..n]);
      assert s == s[..n] + [x];
      assert multiset(s)[x] == multiset(s[..n])[x] + 1;
      assert x in s[..n] <==> x in multiset(s[..n]);
      if Distinct(s) {
        assert Distinct(s[..n]);
        assert x !in s[..n];
        forall y ensures multiset(s)[y] <= 1 {
          if y != x { assert multiset(s)[y] == multiset(s[..n])[y]; }
        }
      } else if Distinct(s[..n]) {
        assert x in s[..n];
        assert multiset(s)[x] >= 2;
      } else {
        var y :| multiset(s[..n])[y] > 1;
        assert multiset(s)[y] > 1;
      }
    }
  }

  /** Permuting rows keeps their keys distinct. */
  lemma PermutationKeepsDistinct<A, B(!new)>(key: A -> B, s: seq<A>, t: seq<A>)
    requires Permutation(s, t) && Distinct(Image(key, s))
    ensures Distinct(Image(key, t))
  {
    PermutationOfImages(key, s, t);
    DistinctCounts(Image(key, s));
    DistinctCounts(Image(key, t));
  }

  lemma KeepWithoutIndex<A(!new)>(p: A -> bool, t: seq<A>, j: nat)
    requires j < |t|
    ensures |Keep(p, t)| == |Keep(p, t[..j] + t[j + 1..])| + if p(t[j]) then 1 else 0
  {
    assert t == t[..j] + [t[j]] + t[j + 1..];
    KeepConcat(p, t[..j] + [t[j]], t[j + 1..]);
    KeepAppend(p, t[..j], t[j]);
    KeepConcat(p, t[..j], t[j + 1..]);
  }

  lemma {:induction false} PermutationOfKeeps<A(!new)>(p: A -> bool, s: seq<A>, t: seq<A>)
    requires Permutation(s, t)
    ensures |Keep(p, s)| == |Keep(p, t)|
  {
    if s == [] {
      assert |multiset(t)| == 0;
    } else {
      var j := MatchOfLast(s, t);
      PermutationOfKeeps(p, s[..|s| - 1], t[..j] + t[j + 1..]);
      KeepWithoutIndex(p, t, j);
    }
  }
}
