/** For non-empty sections that each fit, the packer is the greedy grouping of
    consecutive sections, it joins back to the input, and no grouping is smaller. */
module ChunkGrouping {
  import opened Sequences
  import opened Texts
  import opened Chunking
  import opened ChunkingProperties

  type Group = seq<Section>

  function GroupText(group: Group): string { Join(BLANK, Image(SectionText, group)) }

  predicate Fits(group: Group, max: nat) { |GroupText(group)| <= max }

  /** A way to cut the sections into consecutive non-empty groups that each fit. */
  ghost predicate Grouping(sections: seq<Section>, groups: seq<Group>, max: nat) {
    && Flatten(groups) == sections
    && forall g :: g in groups ==> g != [] && Fits(g, max)
  }

  ghost predicate Packable(sections: seq<Section>, max: nat) {
    forall s :: s in sections ==> 0 < |s.text| <= max
  }

  // ---- The packer as a greedy grouping ----

  datatype Greedy = Greedy(closed: seq<Group>, open: Group)

  function GreedyAdd(g: Greedy, s: Section, max: nat): Greedy {
    if g.open == [] then Greedy(g.closed, [s])
    else if Fits(g.open + [s], max) then Greedy(g.closed, g.open + [s])
    else Greedy(g.closed + [g.open], [s])
  }

  function GreedyGroups(sections: seq<Section>, max: nat): Greedy {
    if sections == [] then Greedy([], [])
    else GreedyAdd(GreedyGroups(sections[..|sections| - 1], max), sections[|sections| - 1], max)
  }

  function Groups(g: Greedy): seq<Group> { g.closed + if g.open == [] then [] else [g.open] }

  function SharedPage(group: Group): Option<int>
    requires group != []
  {
    if forall s | s in group :: s.page == group[0].page then group[0].page else None
  }

  /** The chunk a group becomes. */
  function ChunkOf(group: Group): Chunk {
    if group == [] then NO_BUFFER
    else Chunk(GroupText(group), Some(FirstLine(group[0].text)), SharedPage(group))
  }

  lemma GroupTextAppend(group: Group, s: Section)
    ensures GroupText(group + [s]) == if group == [] then s.text else GroupText(group) + BLANK + s.text
  {
    ImageAppend(SectionText, group, s);
    JoinAppend(BLANK, Image(SectionText, group), s.text);
  }

  lemma GreedyIsGrouping(sections: seq<Section>, max: nat)
    requires Packable(sections, max)
    ensures var g := GreedyGroups(sections, max);
      && Grouping(sections, Groups(g), max)
      && (sections != [] ==> g.open != [])
      && (forall x :: x in g.open ==> x in sections)
  {
    GreedyGroupsFit(sections, max);
    GreedyOpenMembers(sections, max);
  }

  lemma {:induction false} GreedyGroupsFit(sections: seq<Section>, max: nat)
    requires Packable(sections, max)
    ensures Grouping(sections, Groups(GreedyGroups(sections, max)), max)
  {
    if sections == [] {
    } else {
      var n := |sections| - 1;
      var before, last := GreedyGroups(sections[..n], max), sections[n];
      assert sections == sections[..n] + [last] && last in sections;
      GreedyGroupsFit(sections[..n], max);
      GreedyAddFits(before, last, max);
      GreedyAddFlattens(before, last, max);
      hide Fits, Flatten, Groups, GreedyAdd;
    }
  }

  lemma {:induction false} GreedyOpenMembers(sections: seq<Section>, max: nat)
    ensures sections != [] ==> GreedyGroups(sections, max).open != []
    ensures forall x :: x in GreedyGroups(sections, max).open ==> x in sections
  {
    if sections == [] {
    } else {
      var n := |sections| - 1;
      assert sections == sections[..n] + [sections[n]];
      GreedyOpenMembers(sections[..n], max);
      GreedyAddOpens(GreedyGroups(sections[..n], max), sections[n], max);
      hide GreedyAdd;
    }
  }

  lemma GreedyAddOpens(g: Greedy, s: Section, max: nat)
    ensures GreedyAdd(g, s, max).open in {[s], g.open + [s]}
  {
  }

  lemma GreedyAddFits(g: Greedy, s: Section, max: nat)
    requires 0 < |s.text| <= max
    requires forall x :: x in Groups(g) ==> x != [] && Fits(x, max)
    ensures forall x :: x in Groups(GreedyAdd(g, s, max)) ==> x != [] && Fits(x, max)
  {
    GroupTextAppend([], s);
    assert [] + [s] == [s];
    assert Fits([s], max);
    hide Fits;
    if g.open != [] {
      assert g.open in Groups(g);
    }
    assert forall x :: x in g.closed ==> x in Groups(g);
  }

  lemma GreedyAddFlattens(g: Greedy, s: Section, max: nat)
    ensures Flatten(Groups(GreedyAdd(g, s, max))) == Flatten(Groups(g)) + [s]
  {
    var before, after, closed, open := Groups(g), Groups(GreedyAdd(g, s, max)), g.closed, g.open;
    assert open == [] ==> before == closed && after == closed + [[s]];
    assert open != [] && Fits(open + [s], max) ==> before == closed + [open] && after == closed + [open + [s]];
    assert open != [] && !Fits(open + [s], max) ==> before == closed + [open] && after == before + [[s]];
    hide *;
    FlattenAppend(before, [s]);
    FlattenAppend(closed, open);
    FlattenAppend(closed, open + [s]);
    assert Flatten(closed) + (open + [s]) == Flatten(closed) + open + [s];
  }

  /** The packer's state is the greedy grouping, chunk by chunk. */
  lemma {:induction false} PackerIsGreedy(sections: seq<Section>, max: nat, overlap: nat)
    requires Packable(sections, max)
    ensures var g := GreedyGroups(sections, max);
      AddSections(sections, max, overlap) == State(Image(ChunkOf, g.closed), ChunkOf(g.open))
  {
    if sections == [] {
    } else {
      var n := |sections| - 1;
      PackerIsGreedy(sections[..n], max, overlap);
      GreedyIsGrouping(sections[..n], max);
      PackerStep(GreedyGroups(sections[..n], max), sections[n], max, overlap);
    }
  }

  lemma PackerStep(g: Greedy, s: Section, max: nat, overlap: nat)
    requires 0 < |s.text| <= max && Packable(g.open, max)
    ensures var after := GreedyAdd(g, s, max);
      AddSection(State(Image(ChunkOf, g.closed), ChunkOf(g.open)), s, max, overlap)
        == State(Image(ChunkOf, after.closed), ChunkOf(after.open))
  {
    GroupTextAppend([], s);
    GroupTextAppend(g.open, s);
    ImageAppend(ChunkOf, g.closed, g.open);
    if g.open != [] {
      GroupNotEmpty(g.open, max);
      PageOfExtension(g.open, s);
    }
  }

  lemma GroupNotEmpty(group: Group, max: nat)
    requires group != [] && Packable(group, max)
    ensures GroupText(group) != ""
  {
    var n := |group| - 1;
    assert group == group[..n] + [group[n]];
    GroupTextAppend(group[..n], group[n]);
  }

  lemma PageOfExtension(group: Group, s: Section)
    requires group != []
    ensures SharedPage(group + [s]) == if SharedPage(group) != s.page then None else SharedPage(group)
  {
    var all := group + [s];
    assert forall x :: x in all <==> x in group || x == s;
    if SharedPage(group) == s.page && !(forall x | x in group :: x.page == group[0].page) {
      assert exists x :: x in all && x.page != all[0].page;
    }
  }

  /** The chunks before the overlap pass are the greedy groups. */
  lemma PackedIsGreedy(sections: seq<Section>, max: nat, overlap: nat)
    requires Packable(sections, max)
    ensures Packed(sections, max, overlap) == Image(ChunkOf, Groups(GreedyGroups(sections, max)))
  {
    var g := GreedyGroups(sections, max);
    PackerIsGreedy(sections, max, overlap);
    GreedyIsGrouping(sections, max);
    if g.open != [] {
      ImageAppend(ChunkOf, g.closed, g.open);
      GroupNotEmpty(g.open, max);
    } else {
      assert Groups(g) == g.closed;
    }
  }

  // ---- Joining the chunks gives the joined sections ----

  /** Joined by blank lines, the chunks read as the sections did. */
  lemma ChunksJoinToSections(sections: seq<Section>, max: nat, overlap: nat)
    requires Packable(sections, max)
    ensures Join(BLANK, Image(ChunkText, Packed(sections, max, overlap))) == Join(BLANK, Image(SectionText, sections))
  {
    var groups := Groups(GreedyGroups(sections, max));
    PackedIsGreedy(sections, max, overlap);
    GreedyIsGrouping(sections, max);
    JoinOfGroups(BLANK, SectionText, groups);
    assert Image(ChunkText, Image(ChunkOf, groups)) == Image(JoinedBy(BLANK, SectionText), groups);
  }

  /** A chunk's page is the page its sections share, or none. */
  lemma ChunkPages(sections: seq<Section>, max: nat, overlap: nat, i: nat)
    requires Packable(sections, max)
    requires i < |Packed(sections, max, overlap)| && i < |Groups(GreedyGroups(sections, max))|
    ensures var group := Groups(GreedyGroups(sections, max))[i];
      var page := Packed(sections, max, overlap)[i].page;
      && (page.Some? ==> forall s :: s in group ==> s.page == page)
      && (forall p :: group != [] && (forall s :: s in group ==> s.page == Some(p)) ==> page == Some(p))
  {
    PackedIsGreedy(sections, max, overlap);
    GreedyIsGrouping(sections, max);
  }

  // ---- The documented bound, on the sections ----

  /** No group could have taken in the first section of the next one. */
  ghost predicate NeverFit(groups: seq<Group>, max: nat) {
    forall i :: 0 < i < |groups| ==> groups[i] != [] && !Fits(groups[i - 1] + [groups[i][0]], max)
  }

  lemma {:induction false} GreedyNeighboursNeverFit(sections: seq<Section>, max: nat)
    ensures NeverFit(Groups(GreedyGroups(sections, max)), max)
    ensures sections == [] ==> GreedyGroups(sections, max) == Greedy([], [])
  {
    hide Fits;
    if sections == [] {
    } else {
      var n := |sections| - 1;
      GreedyNeighboursNeverFit(sections[..n], max);
      GreedyOpenMembers(sections[..n], max);
      var g, s := GreedyGroups(sections[..n], max), sections[n];
      assert GreedyGroups(sections, max) == GreedyAdd(g, s, max);
      hide GreedyGroups;
      AddNeverFits(g, s, max);
    }
  }

  lemma AddNeverFits(g: Greedy, s: Section, max: nat)
    requires NeverFit(Groups(g), max) && (g.open == [] ==> g.closed == [])
    ensures NeverFit(Groups(GreedyAdd(g, s, max)), max)
  {
    hide Fits, NeverFit;
    var before, closed, open := Groups(g), g.closed, g.open;
    if open == [] {
      assert Groups(GreedyAdd(g, s, max)) == [[s]];
      OneGroupNeverFits([s], max);
    } else if Fits(open + [s], max) {
      assert before == closed + [open] && Groups(GreedyAdd(g, s, max)) == closed + [open + [s]];
      ExtendedNeverFits(closed, open, s, max);
    } else {
      assert before == closed + [open] && Groups(GreedyAdd(g, s, max)) == before + [[s]];
      AnotherNeverFits(closed, open, s, max);
    }
  }

  lemma OneGroupNeverFits(group: Group, max: nat)
    ensures NeverFit([group], max)
  {
  }

  lemma ExtendedNeverFits(closed: seq<Group>, open: Group, s: Section, max: nat)
    requires NeverFit(closed + [open], max) && open != []
    ensures NeverFit(closed + [open + [s]], max)
  {
    hide Fits;
    var before, after := closed + [open], closed + [open + [s]];
    forall i | 0 < i < |after| ensures after[i] != [] && !Fits(after[i - 1] + [after[i][0]], max) {
      assert after[i - 1] == before[i - 1] && before[i] != [] && after[i] != [] && after[i][0] == before[i][0];
    }
  }

  lemma AnotherNeverFits(closed: seq<Group>, open: Group, s: Section, max: nat)
    requires NeverFit(closed + [open], max) && !Fits(open + [s], max)
    ensures NeverFit(closed + [open] + [[s]], max)
  {
    hide Fits;
    var before, after := closed + [open], closed + [open] + [[s]];
    forall i | 0 < i < |after| ensures after[i] != [] && !Fits(after[i - 1] + [after[i][0]], max) {
      assert i < |before| ==> after[i - 1] == before[i - 1] && after[i] == before[i];
      assert i == |before| ==> after[i] == [s] && after[i - 1] == open;
    }
  }

  /** The length of the tail a text of the given length leaves to the next chunk. */
  function TailLength(length: nat, overlap: nat): nat {
    if length > overlap && overlap > 0 then overlap else length
  }

  /** Group i fits behind the tail of the group before it. */
  predicate FitsBehindTail(groups: seq<Group>, max: nat, overlap: nat, i: nat)
    requires 0 < i < |groups|
  {
    TailLength(|GroupText(groups[i - 1])|, overlap) + |GroupText(groups[i])| <= max
  }

  /** Group i is a single section that misses the group before it by the blank line alone. */
  predicate MissesByBlankLine(groups: seq<Group>, max: nat, i: nat)
    requires 0 < i < |groups|
  {
    |groups[i]| == 1 && max - 1 <= |GroupText(groups[i - 1])| + |GroupText(groups[i])| <= max
  }

  /** For sections that fit, the output stays within max exactly when every group
      fits behind the tail of the group before. */
  lemma PackedBoundExactly(sections: seq<Section>, max: nat, overlap: nat)
    requires Packable(sections, max)
    ensures var groups := Groups(GreedyGroups(sections, max));
      Sized(WithOverlap(Packed(sections, max, overlap), overlap), max) <==>
        forall i :: 0 < i < |groups| ==> FitsBehindTail(groups, max, overlap, i)
  {
    hide *;
    var groups, packed := Groups(GreedyGroups(sections, max)), Packed(sections, max, overlap);
    PackedIsGreedy(sections, max, overlap);
    ChunkSizes(sections, max, overlap);
    OverlapBoundExactly(packed, overlap, max);
    if forall i :: 0 < i < |groups| ==> FitsBehindTail(groups, max, overlap, i) {
      forall i | 0 < i < |groups| ensures FitsBehind(packed, overlap, max, i) {
        NeighbourTexts(sections, max, overlap, i);
      }
    }
    if forall i :: 0 < i < |packed| ==> FitsBehind(packed, overlap, max, i) {
      forall i | 0 < i < |groups| ensures FitsBehindTail(groups, max, overlap, i) {
        NeighbourTexts(sections, max, overlap, i);
      }
    }
  }

  lemma NeighbourTexts(sections: seq<Section>, max: nat, overlap: nat, i: nat)
    requires Packable(sections, max) && 0 < i < |Groups(GreedyGroups(sections, max))|
    ensures var groups, packed := Groups(GreedyGroups(sections, max)), Packed(sections, max, overlap);
      && |packed| == |groups|
      && (FitsBehindTail(groups, max, overlap, i) <==> FitsBehind(packed, overlap, max, i))
  {
    hide Packed, GreedyGroups, Groups, GroupText;
    PackedIsGreedy(sections, max, overlap);
    GreedyIsGrouping(sections, max);
    var groups := Groups(GreedyGroups(sections, max));
    assert groups[i - 1] in groups && groups[i] in groups;
  }

  lemma TextNotEmpty(group: Group)
    requires group != [] && forall s :: s in group ==> s.text != ""
    ensures |GroupText(group)| >= 1
  {
    var front, last := group[..|group| - 1], group[|group| - 1];
    assert group == front + [last] && last in group;
    GroupTextAppend(front, last);
    hide GroupText;
  }

  /** A group of several sections is at least three characters longer than its first. */
  lemma LongerThanFirst(group: Group)
    requires |group| > 1 && forall s :: s in group ==> s.text != ""
    ensures |GroupText(group)| >= |group[0].text| + 3
  {
    var first, rest := [group[0]], group[1..];
    assert group == first + rest && [] + [group[0]] == first;
    assert forall s :: s in rest ==> s in group;
    GroupsJoin(first, rest);
    GroupTextAppend([], group[0]);
    TextNotEmpty(rest);
    hide *;
  }

  lemma GroupsJoin(a: Group, b: Group)
    requires a != [] && b != []
    ensures GroupText(a + b) == GroupText(a) + BLANK + GroupText(b)
    ensures |GroupText(a + b)| == |GroupText(a)| + 2 + |GroupText(b)|
  {
    JoinConcat(BLANK, SectionText, a, b);
    hide Join;
  }

  /** Where whole chunks are repeated (no overlap, or one of max or more), the output stays within max exactly when
      every later group is a single section that misses its predecessor's chunk by the blank line alone. */
  lemma WholeTailBoundExactly(sections: seq<Section>, max: nat, overlap: nat)
    requires Packable(sections, max) && (overlap == 0 || overlap >= max)
    ensures var groups := Groups(GreedyGroups(sections, max));
      Sized(WithOverlap(Packed(sections, max, overlap), overlap), max) <==>
        forall i :: 0 < i < |groups| ==> MissesByBlankLine(groups, max, i)
  {
    hide *;
    var groups := Groups(GreedyGroups(sections, max));
    PackedBoundExactly(sections, max, overlap);
    GreedyIsGrouping(sections, max);
    GreedyNeighboursNeverFit(sections, max);
    forall i | 0 < i < |groups| ensures FitsBehindTail(groups, max, overlap, i) <==> MissesByBlankLine(groups, max, i) {
      WholeTailAt(sections, groups, max, overlap, i);
    }
  }

  lemma WholeTailAt(sections: seq<Section>, groups: seq<Group>, max: nat, overlap: nat, i: nat)
    requires Packable(sections, max) && Grouping(sections, groups, max) && NeverFit(groups, max) && 0 < i < |groups|
    requires overlap == 0 || overlap >= max
    ensures FitsBehindTail(groups, max, overlap, i) <==> MissesByBlankLine(groups, max, i)
  {
    var before, group := groups[i - 1], groups[i];
    assert before in groups && group in groups && Fits(before, max);
    forall s: Section | s in group ensures s.text != "" {
      GroupMembers(groups, group, s);
      assert s in sections;
    }
    hide GroupText, Flatten;
    NeighbourLengths(before, group, max);
  }

  lemma {:induction false} GroupMembers(groups: seq<Group>, group: Group, s: Section)
    requires group in groups && s in group
    ensures s in Flatten(groups)
  {
    var n := |groups| - 1;
    if groups[n] == group {
    } else {
      assert groups == groups[..n] + [groups[n]];
      GroupMembers(groups[..n], group, s);
    }
  }

  lemma NeighbourLengths(before: Group, group: Group, max: nat)
    requires before != [] && group != [] && !Fits(before + [group[0]], max) && forall s :: s in group ==> s.text != ""
    ensures |GroupText(before)| + |GroupText(group)| >= max - 1
    ensures |group| > 1 ==> |GroupText(before)| + |GroupText(group)| > max
  {
    GroupTextAppend(before, group[0]);
    hide GroupText;
    if |group| > 1 {
      LongerThanFirst(group);
    } else {
      GroupTextAppend([], group[0]);
      assert [] + [group[0]] == group;
    }
  }

  // ---- No grouping has fewer groups ----

  lemma SuffixFits(a: Group, b: Group, max: nat)
    requires Fits(a + b, max)
    ensures Fits(b, max)
  {
    if a == [] {
      assert a + b == b;
    } else if b != [] {
      JoinConcat(BLANK, SectionText, a, b);
    }
  }

  lemma PrefixFits(a: Group, b: Group, max: nat)
    requires Fits(a + b, max)
    ensures Fits(a, max)
  {
    if b == [] {
      assert a + b == a;
    } else if a != [] {
      JoinConcat(BLANK, SectionText, a, b);
    }
  }

  /** Greedy stays ahead: fewer groups, or as many and a last group no longer. */
  ghost predicate Ahead(g: Greedy, groups: seq<Group>) {
    && groups != []
    && (|g.closed| + 1 < |groups| || (|g.closed| + 1 == |groups| && |g.open| <= |groups[|groups| - 1]|))
  }

  lemma {:induction false} GreedyStaysAhead(sections: seq<Section>, groups: seq<Group>, max: nat)
    requires Packable(sections, max) && Grouping(sections, groups, max) && sections != []
    ensures Ahead(GreedyGroups(sections, max), groups)
    decreases |sections|
  {
    var n, k := |sections| - 1, |groups| - 1;
    if n == 0 {
      assert sections[..0] == [] && groups[k] in groups;
    } else if |groups[k]| == 1 {
      LastGroupAlone(sections, groups, max);
      GreedyIsGrouping(sections[..n], max);
      GreedyStaysAhead(sections[..n], groups[..k], max);
    } else {
      var shorter := LastGroupShortened(sections, groups, max);
      GreedyIsGrouping(sections[..n], max);
      GreedyStaysAhead(sections[..n], groups[..k] + [shorter], max);
      var g := GreedyGroups(sections[..n], max);
      if |g.closed| + 1 == |groups| {
        OpenIsSuffix(sections[..n], max);
        OpenFits(sections, g.open, groups[k], max);
      }
    }
  }

  lemma LastGroupAlone(sections: seq<Section>, groups: seq<Group>, max: nat)
    requires Grouping(sections, groups, max) && |sections| > 1 && |groups[|groups| - 1]| == 1
    ensures Grouping(sections[..|sections| - 1], groups[..|groups| - 1], max)
  {
    var k := |groups| - 1;
    assert groups == groups[..k] + [groups[k]];
    FlattenAppend(groups[..k], groups[k]);
    assert sections[..|sections| - 1] == Flatten(groups[..k]);
    assert forall x :: x in groups[..k] ==> x in groups;
  }

  lemma LastGroupShortened(sections: seq<Section>, groups: seq<Group>, max: nat) returns (shorter: Group)
    requires Grouping(sections, groups, max) && |sections| > 1 && |groups[|groups| - 1]| != 1
    ensures Grouping(sections[..|sections| - 1], groups[..|groups| - 1] + [shorter], max)
    ensures |shorter| + 1 == |groups[|groups| - 1]| <= |sections| && Fits(groups[|groups| - 1], max)
    ensures groups[|groups| - 1] == sections[|sections| - |groups[|groups| - 1]|..]
  {
    var n, k := |sections| - 1, |groups| - 1;
    var last := groups[k];
    assert groups == groups[..k] + [last] && last in groups;
    FlattenAppend(groups[..k], last);
    shorter := last[..|last| - 1];
    assert last == shorter + [last[|last| - 1]];
    PrefixFits(shorter, [last[|last| - 1]], max);
    FlattenAppend(groups[..k], shorter);
    assert sections[..n] == Flatten(groups[..k] + [shorter]);
    assert forall x :: x in groups[..k] ==> x in groups;
  }

  lemma {:induction false} OpenIsSuffix(sections: seq<Section>, max: nat)
    ensures var open := GreedyGroups(sections, max).open;
      |open| <= |sections| && open == sections[|sections| - |open|..]
  {
    hide GreedyAdd;
    if sections == [] {
    } else {
      var n := |sections| - 1;
      OpenIsSuffix(sections[..n], max);
      GreedyAddOpens(GreedyGroups(sections[..n], max), sections[n], max);
      SuffixGrows(sections, GreedyGroups(sections[..n], max).open);
    }
  }

  lemma SuffixGrows(sections: seq<Section>, open: Group)
    requires sections != [] && |open| < |sections|
    requires open == sections[..|sections| - 1][|sections| - 1 - |open|..]
    ensures sections[|sections| - 1 - |open|..] == open + [sections[|sections| - 1]]
    ensures sections[|sections| - 1..] == [sections[|sections| - 1]]
  {
  }

  /** If the other grouping's last group is longer and fits, greedy could still add the section. */
  lemma OpenFits(sections: seq<Section>, open: Group, last: Group, max: nat)
    requires sections != [] && |open| < |last| <= |sections| && Fits(last, max)
    requires open == sections[|sections| - 1 - |open|..|sections| - 1]
    requires last == sections[|sections| - |last|..]
    ensures Fits(open + [sections[|sections| - 1]], max)
  {
    var tail := open + [sections[|sections| - 1]];
    assert last == last[..|last| - |tail|] + tail;
    SuffixFits(last[..|last| - |tail|], tail, max);
  }

  /** The packer emits as few chunks as any order-preserving grouping within max. */
  lemma GreedyIsOptimal(sections: seq<Section>, groups: seq<Group>, max: nat, overlap: nat)
    requires Packable(sections, max) && Grouping(sections, groups, max)
    ensures |Packed(sections, max, overlap)| <= |groups|
    ensures Grouping(sections, Groups(GreedyGroups(sections, max)), max)
  {
    PackedIsGreedy(sections, max, overlap);
    GreedyIsGrouping(sections, max);
    if sections != [] {
      GreedyStaysAhead(sections, groups, max);
    }
  }
}
