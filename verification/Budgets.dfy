/** Token budgets: the estimate, the greedy fill of a slot, and how far the
    joined text of a filled slot can overshoot the slot's budget. */
module Budgets {
  import opened Texts

  const CHARS_PER_TOKEN := 4

  /** estimate_tokens */
  function EstimateTokens(text: string): (tokens: nat)
    ensures tokens >= 1
    ensures 4 * tokens <= |text| < 4 * tokens + 4 || (tokens == 1 && |text| < 4)
  {
    if |text| / CHARS_PER_TOKEN < 1 then 1 else |text| / CHARS_PER_TOKEN
  }

  function Cost<A>(text: A -> string, items: seq<A>): nat {
    if items == [] then 0
    else Cost(text, items[..|items| - 1]) + EstimateTokens(text(items[|items| - 1]))
  }

  lemma CostAppend<A>(text: A -> string, items: seq<A>, item: A)
    ensures Cost(text, items + [item]) == Cost(text, items) + EstimateTokens(text(item))
  {
    assert (items + [item])[..|items|] == items;
  }

  lemma {:induction false} CostConcat<A>(text: A -> string, a: seq<A>, b: seq<A>)
    ensures Cost(text, a + b) == Cost(text, a) + Cost(text, b)
    ensures Cost(text, b) >= |b|
  {
    if b == [] {
      assert a + b == a;
    } else {
      var n := |b| - 1;
      assert a + b == (a + b[..n]) + [b[n]];
      CostConcat(text, a, b[..n]);
      CostAppend(text, a + b[..n], b[n]);
    }
  }

  /** k is the number of leading items that fit: a non-empty prefix fits exactly when it is no longer. */
  ghost predicate LongestFit<A>(text: A -> string, items: seq<A>, budget: int, k: nat) {
    k <= |items| && forall j :: 0 < j <= |items| ==> (Cost(text, items[..j]) <= budget <==> j <= k)
  }

  /** The greedy loop of truncate_to_budget and _truncate_chunks: stop at the first item that does not fit. */
  method TruncateToBudget<A>(text: A -> string, items: seq<A>, budget: int) returns (kept: seq<A>)
    ensures kept == Fitting(text, items, budget)
    ensures kept <= items && LongestFit(text, items, budget, |kept|)
  {
    kept := [];
    var used, i := 0, 0;
    while i < |items|
      invariant 0 <= i <= |items| && kept == items[..i] && used == Cost(text, kept)
      invariant i > 0 ==> used <= budget
    {
      var cost := EstimateTokens(text(items[i]));
      assert items[..i + 1] == items[..i] + [items[i]];
      CostAppend(text, items[..i], items[i]);
      if used + cost <= budget {
        kept := kept + [items[i]];
        used := used + cost;
      } else {
        break;
      }
      i := i + 1;
    }
    assert items[..|items|] == items;
    PrefixesThatFit(text, items, budget, i);
    FittingIsLongest(text, items, budget);
    LongestFitIsUnique(text, items, budget, i, |Fitting(text, items, budget)|);
  }

  lemma PrefixesThatFit<A>(text: A -> string, items: seq<A>, budget: int, k: nat)
    requires k <= |items|
    requires k > 0 ==> Cost(text, items[..k]) <= budget
    requires k < |items| ==> Cost(text, items[..k + 1]) > budget
    ensures LongestFit(text, items, budget, k)
  {
    forall j | 0 < j <= |items| ensures Cost(text, items[..j]) <= budget <==> j <= k {
      if j <= k {
        assert items[..k] == items[..j] + items[j..k];
        CostConcat(text, items[..j], items[j..k]);
      } else {
        assert items[..j] == items[..k + 1] + items[k + 1..j];
        CostConcat(text, items[..k + 1], items[k + 1..j]);
      }
    }
  }

  lemma LongestFitIsUnique<A>(text: A -> string, items: seq<A>, budget: int, a: nat, b: nat)
    requires LongestFit(text, items, budget, a) && LongestFit(text, items, budget, b)
    ensures a == b
  {
    assert 0 < a ==> (Cost(text, items[..a]) <= budget <==> a <= b);
    assert 0 < b ==> (Cost(text, items[..b]) <= budget <==> b <= a);
  }

  /** The items a slot keeps. */
  function Fitting<A>(text: A -> string, items: seq<A>, budget: int): (kept: seq<A>)
    ensures |kept| <= |items|
  {
    if items == [] then []
    else
      var n := |items| - 1;
      var front := Fitting(text, items[..n], budget);
      if |front| == n && Cost(text, items) <= budget then items else front
  }

  lemma {:induction false} FittingIsLongest<A>(text: A -> string, items: seq<A>, budget: int)
    ensures var kept := Fitting(text, items, budget); kept <= items && LongestFit(text, items, budget, |kept|)
  {
    if items == [] {
    } else {
      var n := |items| - 1;
      FittingIsLongest(text, items[..n], budget);
      LongestFitNext(text, items, budget, |Fitting(text, items[..n], budget)|);
    }
  }

  lemma LongestFitNext<A>(text: A -> string, items: seq<A>, budget: int, k: nat)
    requires items != [] && LongestFit(text, items[..|items| - 1], budget, k)
    ensures LongestFit(text, items, budget, if k == |items| - 1 && Cost(text, items) <= budget then |items| else k)
  {
    hide *;
    LongestFitParts(text, items, |items| - 1, budget, k);
    assert items[..|items|] == items;
    if k == |items| - 1 && Cost(text, items) <= budget {
      PrefixesThatFit(text, items, budget, |items|);
    } else {
      PrefixesThatFit(text, items, budget, k);
    }
  }

  lemma LongestFitParts<A>(text: A -> string, items: seq<A>, n: nat, budget: int, k: nat)
    requires n <= |items| && LongestFit(text, items[..n], budget, k)
    ensures k <= n
    ensures k > 0 ==> Cost(text, items[..k]) <= budget
    ensures k < n ==> Cost(text, items[..k + 1]) > budget
  {
    hide Cost;
    assert items[..n][..k] == items[..k];
    assert k < n ==> items[..n][..k + 1] == items[..k + 1];
  }

  /** What is kept costs at most the budget, unless nothing is kept. */
  lemma FittingCost<A>(text: A -> string, items: seq<A>, budget: int)
    ensures var kept := Fitting(text, items, budget);
      Cost(text, kept) <= if budget < 0 then 0 else budget
  {
    FittingIsLongest(text, items, budget);
    var k := |Fitting(text, items, budget)|;
    if k > 0 {
      assert Cost(text, items[..k]) <= budget <==> k <= k;
      assert Fitting(text, items, budget) == items[..k];
    }
  }

  // ---- How far joined text overshoots ----

  /** The most tokens a slot filled to its budget can hold once its items are joined by gap characters. */
  function SlotBound(gap: nat, budget: int): nat {
    if budget <= 0 then 1 else ((7 + gap) * budget - gap) / CHARS_PER_TOKEN
  }

  lemma {:induction false} JoinedLength<A>(sep: string, text: A -> string, items: seq<A>)
    requires items != []
    ensures |JoinedBy(sep, text)(items)| + |sep| <= 4 * Cost(text, items) + (3 + |sep|) * |items|
    ensures |items| <= Cost(text, items)
  {
    var n := |items| - 1;
    assert items == items[..n] + [items[n]];
    JoinedByAppend(sep, text, items[..n], items[n]);
    CostAppend(text, items[..n], items[n]);
    if n == 0 {
    } else {
      JoinedLength(sep, text, items[..n]);
    }
    var item, before, all := text(items[n]), Cost(text, items[..n]), Cost(text, items);
    var joined, front := |JoinedBy(sep, text)(items)|, |JoinedBy(sep, text)(items[..n])|;
    assert joined == if n == 0 then |item| else front + |sep| + |item|;
    assert |item| <= 4 * (all - before) + 3 && all > before;
    hide *;
    Distribute(3 + |sep|, n, 1);
  }

  lemma Distribute(a: nat, x: nat, y: nat)
    ensures a * (x + y) == a * x + a * y
  {
  }

  lemma Scale(a: nat, x: nat, y: nat)
    requires x <= y
    ensures a * x <= a * y
  {
  }

  lemma JoinedWithinSlot<A>(sep: string, text: A -> string, items: seq<A>, budget: int)
    requires Cost(text, items) <= if budget < 0 then 0 else budget
    ensures EstimateTokens(JoinedBy(sep, text)(items)) <= SlotBound(|sep|, budget)
  {
    if items != [] {
      JoinedLength(sep, text, items);
      Scale(3 + |sep|, |items|, budget);
      assert (7 + |sep|) * budget == 4 * budget + (3 + |sep|) * budget;
      Scale(|sep|, 1, budget);
      assert (7 + |sep|) * budget == 7 * budget + |sep| * budget;
    } else if budget > 0 {
      Scale(|sep|, 1, budget);
      assert (7 + |sep|) * budget == 7 * budget + |sep| * budget;
    }
  }

  function Same(s: string): string { s }

  const SEVEN := "tokens."

  /** No smaller bound holds: items of seven characters reach it for every budget. */
  lemma SlotBoundIsReached(sep: string, budget: nat) returns (items: seq<string>)
    requires budget >= 1
    ensures Fitting(Same, items, budget) == items
    ensures EstimateTokens(JoinedBy(sep, Same)(items)) == SlotBound(|sep|, budget)
  {
    items := Copies(budget);
    CopiesMeasure(sep, budget);
    WholeListFits(Same, items, budget);
    var joined := |JoinedBy(sep, Same)(items)|;
    hide *;
    BoundOfCopies(|sep|, budget, joined);
  }

  lemma BoundOfCopies(gap: nat, n: nat, length: nat)
    requires n >= 1 && length == 7 * n + gap * (n - 1)
    ensures length >= 7 && length == (7 + gap) * n - gap
    ensures SlotBound(gap, n) == length / CHARS_PER_TOKEN >= 1
  {
    Distribute(gap, n - 1, 1);
    Distribute(n, 7, gap);
    Scale(gap, 0, n - 1);
  }

  lemma WholeListFits<A>(text: A -> string, items: seq<A>, budget: int)
    requires Cost(text, items) <= budget
    ensures Fitting(text, items, budget) == items
  {
    FittingIsLongest(text, items, budget);
    assert items[..|items|] == items;
    assert items == [] || |items| <= |Fitting(text, items, budget)|;
  }

  function Copies(n: nat): (r: seq<string>)
    ensures |r| == n
  {
    if n == 0 then [] else Copies(n - 1) + [SEVEN]
  }

  lemma {:induction false} CopiesMeasure(sep: string, n: nat)
    ensures Cost(Same, Copies(n)) == n
    ensures n > 0 ==> |JoinedBy(sep, Same)(Copies(n))| == 7 * n + |sep| * (n - 1)
  {
    if n == 0 {
    } else {
      CopiesMeasure(sep, n - 1);
      CostAppend(Same, Copies(n - 1), SEVEN);
      JoinedByAppend(sep, Same, Copies(n - 1), SEVEN);
      assert |SEVEN| == 7;
      assert n > 1 ==> |sep| * (n - 1) == |sep| * (n - 2) + |sep|;
    }
  }
}
