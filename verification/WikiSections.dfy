/** The wiki-page slot: cutting a page at its headings, ordering the sections
    by priority, keeping those that fit, and reporting what was left out. */
module WikiSections {
  import opened Sequences
  import opened StableSorting
  import opened Texts
  import opened Budgets

  const NEWLINE := "\n"
  const BLANK_LINE := "\n\n"
  const ENTITY_PAGE_SECTION_PRIORITY := ["entity_prose", "relationships", "contradictions", "sources", "other"]

  datatype Section = Section(tag: string, text: string)

  function Tag(s: Section): string { s.tag }
  function Text(s: Section): string { s.text }

  predicate IsHeading(line: string) { |line| >= 3 && line[..3] == "## " }

  /** _heading_to_tag */
  function HeadingToTag(heading: string): string {
    if heading == "relations" || heading == "relationships" then "relationships"
    else if heading == "contradictions" then "contradictions"
    else if heading == "sources" || heading == "chunks" then "sources"
    else if heading == "pages created or updated" then "pages_created"
    else if heading == "key relations introduced" then "key_relations"
    else if heading == "ingest history" then "ingest_history"
    else "other"
  }

  /** The tag of a block of lines by its first line; lower is the library's lower-casing. */
  function TagOfLine(lower: string -> string, line: string): string {
    if IsHeading(line) then HeadingToTag(lower(Strip(line[3..]))) else "entity_prose"
  }

  // ---- Cutting at headings ----

  type Block = seq<string>

  datatype Cut = Cut(closed: seq<Block>, open: Block)

  function AddLine(cut: Cut, line: string): Cut {
    if !IsHeading(line) then Cut(cut.closed, cut.open + [line])
    else Cut(Blocks(cut), [line])
  }

  function Blocks(cut: Cut): seq<Block> { cut.closed + if cut.open == [] then [] else [cut.open] }

  function CutLines(lines: seq<string>): Cut {
    if lines == [] then Cut([], []) else AddLine(CutLines(lines[..|lines| - 1]), lines[|lines| - 1])
  }

  function SectionOf(lower: string -> string): Block -> Section {
    (block: Block) =>
      Section(if block == [] then "entity_prose" else TagOfLine(lower, block[0]), Join(NEWLINE, block))
  }

  function Sections(lower: string -> string, lines: seq<string>): seq<Section> {
    Image(SectionOf(lower), Blocks(CutLines(lines)))
  }

  /** _parse_sections, on the page's lines */
  method ParseSections(lower: string -> string, lines: seq<string>) returns (sections: seq<Section>)
    ensures sections == Sections(lower, lines)
  {
    sections := [];
    var currentTag, currentLines := "entity_prose", [];
    var i := 0;
    while i < |lines|
      invariant 0 <= i <= |lines|
      invariant sections == Image(SectionOf(lower), CutLines(lines[..i]).closed)
      invariant currentLines == CutLines(lines[..i]).open
      invariant currentTag == SectionOf(lower)(currentLines).tag
    {
      var line := lines[i];
      assert lines[..i + 1][..i] == lines[..i] && lines[..i + 1][i] == line;
      ghost var cut := CutLines(lines[..i]);
      if IsHeading(line) {
        if currentLines != [] {
          ImageAppend(SectionOf(lower), cut.closed, cut.open);
          sections := sections + [Section(currentTag, Join(NEWLINE, currentLines))];
        } else {
          assert Blocks(cut) == cut.closed;
        }
        currentTag, currentLines := TagOfLine(lower, line), [line];
      } else {
        currentLines := currentLines + [line];
      }
      i := i + 1;
    }
    assert lines[..i] == lines;
    ghost var cut := CutLines(lines);
    if currentLines != [] {
      ImageAppend(SectionOf(lower), cut.closed, cut.open);
      sections := sections + [Section(currentTag, Join(NEWLINE, currentLines))];
    } else {
      assert Blocks(cut) == cut.closed;
    }
  }

  /** Only a block's first line can be a heading, and only the first block may start without one. */
  ghost predicate CutAtHeadings(blocks: seq<Block>) {
    && (forall b :: b in blocks ==> b != [] && forall j :: 0 < j < |b| ==> !IsHeading(b[j]))
    && (forall i :: 0 < i < |blocks| ==> blocks[i] != [] && IsHeading(blocks[i][0]))
  }

  /** The blocks hold the page's lines, cut exactly at the headings. */
  lemma CutLinesCuts(lines: seq<string>)
    ensures Flatten(Blocks(CutLines(lines))) == lines
    ensures CutAtHeadings(Blocks(CutLines(lines)))
  {
    CutLinesFlatten(lines);
    CutLinesAtHeadings(lines);
  }

  lemma {:induction false} CutLinesFlatten(lines: seq<string>)
    ensures Flatten(Blocks(CutLines(lines))) == lines
    ensures if lines == [] then CutLines(lines) == Cut([], []) else CutLines(lines).open != []
  {
    if lines == [] {
    } else {
      var n := |lines| - 1;
      CutLinesFlatten(lines[..n]);
      assert lines == lines[..n] + [lines[n]];
      hide AddLine, Blocks, Flatten;
      AddLineFlattens(CutLines(lines[..n]), lines[n]);
      AddLineOpens(CutLines(lines[..n]), lines[n]);
    }
  }

  lemma {:induction false} CutLinesAtHeadings(lines: seq<string>)
    ensures CutAtHeadings(Blocks(CutLines(lines)))
  {
    if lines == [] {
    } else {
      var n := |lines| - 1;
      CutLinesFlatten(lines[..n]);
      CutLinesAtHeadings(lines[..n]);
      hide AddLine, Blocks, Flatten, CutAtHeadings;
      AddLineCuts(CutLines(lines[..n]), lines[n]);
    }
  }

  lemma AddLineOpens(cut: Cut, line: string)
    ensures AddLine(cut, line).open != []
  {
  }

  lemma AddLineFlattens(cut: Cut, line: string)
    requires cut.open == [] ==> cut.closed == []
    ensures Flatten(Blocks(AddLine(cut, line))) == Flatten(Blocks(cut)) + [line]
  {
    var before, after, closed, open := Blocks(cut), Blocks(AddLine(cut, line)), cut.closed, cut.open;
    assert open == [] ==> open + [line] == [line] && before == [];
    assert open == [] ==> after == before + [[line]];
    assert open != [] ==> before == closed + [open];
    assert IsHeading(line) ==> after == before + [[line]];
    assert open != [] && !IsHeading(line) ==> after == closed + [open + [line]];
    hide *;
    FlattenAppend(before, [line]);
    FlattenAppend(closed, open);
    FlattenAppend(closed, open + [line]);
    assert Flatten(closed) + (open + [line]) == Flatten(closed) + open + [line];
  }

  lemma HeadingStartsBlock(blocks: seq<Block>, line: string)
    requires CutAtHeadings(blocks) && IsHeading(line)
    ensures CutAtHeadings(blocks + [[line]])
  {
    hide IsHeading;
  }

  lemma LineExtendsBlock(closed: seq<Block>, open: Block, line: string)
    requires CutAtHeadings(closed + [open]) && open != [] && !IsHeading(line)
    ensures CutAtHeadings(closed + [open + [line]])
  {
    hide IsHeading;
    var before, after := closed + [open], closed + [open + [line]];
    assert forall b :: b in closed ==> b in before;
    assert open in before && before[|closed|] == open;
    assert forall i :: 0 <= i < |closed| ==> after[i] == before[i];
    assert forall j :: 0 < j < |open| ==> !IsHeading(open[j]);
  }

  lemma AddLineCuts(cut: Cut, line: string)
    requires CutAtHeadings(Blocks(cut)) && (cut.open == [] ==> cut.closed == [])
    ensures CutAtHeadings(Blocks(AddLine(cut, line)))
  {
    var before, after := Blocks(cut), Blocks(AddLine(cut, line));
    if IsHeading(line) {
      assert after == before + [[line]];
      HeadingStartsBlock(before, line);
    } else if cut.open == [] {
      assert cut.open + [line] == [line];
      assert after == [[line]];
    } else {
      assert before == cut.closed + [cut.open] && after == cut.closed + [cut.open + [line]];
      LineExtendsBlock(cut.closed, cut.open, line);
    }
  }

  lemma JoinedSame(sep: string, lines: seq<string>)
    ensures JoinedBy(sep, Same)(lines) == Join(sep, lines)
  {
    assert Image(Same, lines) == lines;
  }

  lemma SectionTexts(lower: string -> string, blocks: seq<Block>)
    ensures Image(Text, Image(SectionOf(lower), blocks)) == Image(JoinedBy(NEWLINE, Same), blocks)
  {
    forall i | 0 <= i < |blocks| ensures SectionOf(lower)(blocks[i]).text == JoinedBy(NEWLINE, Same)(blocks[i]) {
      JoinedSame(NEWLINE, blocks[i]);
    }
  }

  /** The section texts, joined by newlines, are the page's lines again. */
  lemma SectionsAreLossless(lower: string -> string, lines: seq<string>)
    ensures Join(NEWLINE, Image(Text, Sections(lower, lines))) == Join(NEWLINE, lines)
  {
    var blocks := Blocks(CutLines(lines));
    CutLinesCuts(lines);
    assert forall b :: b in blocks ==> b != [];
    SectionTexts(lower, blocks);
    JoinedSame(NEWLINE, lines);
    assert Sections(lower, lines) == Image(SectionOf(lower), blocks);
    hide *;
    JoinOfGroups(NEWLINE, Same, blocks);
  }

  // ---- Ordering and truncating ----

  function IndexOf(names: seq<string>, name: string): (i: nat)
    requires name in names
    ensures i < |names| && names[i] == name && name !in names[..i]
  {
    if names[0] == name then 0 else 1 + IndexOf(names[1..], name)
  }

  /** A tag outside the list ranks first. */
  function Priority(s: Section): Rank {
    (if s.tag in ENTITY_PAGE_SECTION_PRIORITY then IndexOf(ENTITY_PAGE_SECTION_PRIORITY, s.tag) else 0, 0)
  }

  datatype WikiPage = WikiPage(content: string, lines: seq<string>, sources: nat)

  datatype Snapshot = Snapshot(content: string, sources: nat, wasTruncated: bool, originalTokens: nat,
    included: seq<string>, dropped: seq<string>)

  function HasTextIn(selected: seq<string>): Section -> bool { (s: Section) => s.text in selected }

  function HasTextOutside(selected: seq<string>): Section -> bool { (s: Section) => s.text !in selected }

  function Ordered(lower: string -> string, page: WikiPage): seq<Section> {
    StableSort(Priority, Sections(lower, page.lines))
  }

  function Selected(lower: string -> string, page: WikiPage, budget: int): seq<string> {
    Fitting(Same, Image(Text, Ordered(lower, page)), budget)
  }

  function SnapshotOf(lower: string -> string, page: WikiPage, budget: int): Snapshot {
    var ordered, selected := Ordered(lower, page), Selected(lower, page, budget);
    Snapshot(
      Join(BLANK_LINE, selected), page.sources, |selected| < |ordered|, EstimateTokens(page.content),
      Image(Tag, Keep(HasTextIn(selected), ordered)), Image(Tag, Keep(HasTextOutside(selected), ordered)))
  }

  /** _fetch_wiki_page, on the row the query found */
  method FetchWikiPage(lower: string -> string, page: Option<WikiPage>, budget: int)
    returns (snapshot: Option<Snapshot>)
    ensures snapshot == if page.None? then None else Some(SnapshotOf(lower, page.value, budget))
  {
    if page.None? {
      return None;
    }
    var sections := ParseSections(lower, page.value.lines);
    sections := StableSort(Priority, sections);
    var selected := TruncateToBudget(Same, Image(Text, sections), budget);
    var included := Image(Tag, Keep(HasTextIn(selected), sections));
    var dropped := Image(Tag, Keep(HasTextOutside(selected), sections));
    snapshot := Some(Snapshot(Join(BLANK_LINE, selected), page.value.sources, |selected| < |sections|,
      EstimateTokens(page.value.content), included, dropped));
  }

  // ---- What the snapshot reports ----

  lemma {:induction false} KeepSplits<A(!new)>(p: A -> bool, q: A -> bool, s: seq<A>)
    requires forall x :: x in s ==> p(x) != q(x)
    ensures multiset(Keep(p, s) + Keep(q, s)) == multiset(s)
  {
    if s == [] {
    } else {
      var n := |s| - 1;
      assert s == s[..n] + [s[n]];
      KeepSplits(p, q, s[..n]);
      KeepAppend(p, s[..n], s[n]);
      KeepAppend(q, s[..n], s[n]);
    }
  }

  /** Included and dropped tags together are the page's tags, each as often as it occurs. */
  lemma SnapshotAccounts(lower: string -> string, page: WikiPage, budget: int)
    ensures var snapshot := SnapshotOf(lower, page, budget);
      Permutation(snapshot.included + snapshot.dropped, Image(Tag, Sections(lower, page.lines)))
  {
    var ordered, selected := Ordered(lower, page), Selected(lower, page, budget);
    StableSortSorts(Priority, Sections(lower, page.lines));
    var kept, lost := Keep(HasTextIn(selected), ordered), Keep(HasTextOutside(selected), ordered);
    KeepSplits(HasTextIn(selected), HasTextOutside(selected), ordered);
    PermutationOfImages(Tag, kept + lost, Sections(lower, page.lines));
    ImageConcat(Tag, kept, lost);
  }

  lemma SelectedIsPrefix(lower: string -> string, page: WikiPage, budget: int)
    ensures var ordered, selected := Ordered(lower, page), Selected(lower, page, budget);
      |selected| <= |ordered| && selected == Image(Text, ordered[..|selected|])
  {
    FittingIsLongest(Same, Image(Text, Ordered(lower, page)), budget);
  }

  lemma LateRepeats(front: seq<Section>, back: seq<Section>, selected: seq<string>)
    requires selected == Image(Text, front)
    ensures Image(Tag, Keep(HasTextIn(selected), front + back)) == Image(Tag, front)
       <==> forall s :: s in back ==> s.text !in selected
  {
    forall s | s in front ensures HasTextIn(selected)(s) {
      var i :| 0 <= i < |front| && front[i] == s;
      assert selected[i] == s.text;
    }
    KeepAll(HasTextIn(selected), front);
    KeepConcat(HasTextIn(selected), front, back);
    var late := Keep(HasTextIn(selected), back);
    assert forall s :: s in late <==> s in back && s.text in selected;
    if forall s :: s in back ==> s.text !in selected {
      KeepNone(HasTextIn(selected), back);
      assert front + late == front;
    } else {
      var s :| s in back && s.text in selected;
      assert s in late && |front + late| > |front|;
    }
  }

  lemma IncludedByText(lower: string -> string, page: WikiPage, budget: int)
    ensures SnapshotOf(lower, page, budget).included
      == Image(Tag, Keep(HasTextIn(Selected(lower, page, budget)), Ordered(lower, page)))
  {
    hide Selected, Ordered;
  }

  /** Sections are reported by text, so the included tags are those of the kept prefix exactly when
      no section behind it repeats a kept text. */
  lemma IncludedAreTheKept(lower: string -> string, page: WikiPage, budget: int)
    ensures var ordered, selected := Ordered(lower, page), Selected(lower, page, budget);
      && |selected| <= |ordered|
      && (SnapshotOf(lower, page, budget).included == Image(Tag, ordered[..|selected|]) <==>
           forall s :: s in ordered[|selected|..] ==> s.text !in selected)
  {
    hide *;
    var ordered, selected := Ordered(lower, page), Selected(lower, page, budget);
    SelectedIsPrefix(lower, page, budget);
    IncludedByText(lower, page, budget);
    var k := |selected|;
    assert ordered == ordered[..k] + ordered[k..];
    LateRepeats(ordered[..k], ordered[k..], selected);
  }

  lemma {:induction false} CostOfPermutation(s: seq<string>, t: seq<string>)
    requires Permutation(s, t)
    ensures Cost(Same, s) == Cost(Same, t)
  {
    if s == [] {
      assert |multiset(t)| == 0;
    } else {
      var n := |s| - 1;
      var j := MatchOfLast(s, t);
      CostOfPermutation(s[..n], t[..j] + t[j + 1..]);
      CostConcat(Same, t[..j], t[j + 1..]);
      CostAppend(Same, t[..j], t[j]);
      CostConcat(Same, t[..j] + [t[j]], t[j + 1..]);
      assert t == t[..j] + [t[j]] + t[j + 1..];
    }
  }

  /** The page is reported truncated exactly when its sections together cost more than the slot. */
  lemma TruncatedExactly(lower: string -> string, page: WikiPage, budget: nat)
    ensures SnapshotOf(lower, page, budget).wasTruncated
       <==> Cost(Same, Image(Text, Sections(lower, page.lines))) > budget
  {
    var sections := Sections(lower, page.lines);
    var texts := Image(Text, Ordered(lower, page));
    StableSortSorts(Priority, sections);
    PermutationOfImages(Text, sections, Ordered(lower, page));
    CostOfPermutation(Image(Text, sections), texts);
    FittingIsLongest(Same, texts, budget);
    assert texts[..|texts|] == texts;
  }

  /** No kept section ranks behind a section that was cut off. */
  lemma KeptComeFirst(lower: string -> string, page: WikiPage, budget: int)
    ensures var ordered, k := Ordered(lower, page), |Selected(lower, page, budget)|;
      forall i, j :: 0 <= i < k <= j < |ordered| ==> Priority(ordered[i]).0 <= Priority(ordered[j]).0
  {
    StableSortSorts(Priority, Sections(lower, page.lines));
  }

  /** Sections of one rank keep the page's order. */
  lemma SameRankKeepsPageOrder(lower: string -> string, page: WikiPage, rank: Rank)
    ensures Keep(HasRank(Priority, rank), Ordered(lower, page))
        == Keep(HasRank(Priority, rank), Sections(lower, page.lines))
  {
    StableSortIsStable(Priority, Sections(lower, page.lines), rank);
  }

  /** The slot's text stays within the bound for its budget. */
  lemma SnapshotWithinSlot(lower: string -> string, page: WikiPage, budget: int)
    ensures EstimateTokens(SnapshotOf(lower, page, budget).content) <= SlotBound(|BLANK_LINE|, budget)
  {
    var selected := Selected(lower, page, budget);
    FittingCost(Same, Image(Text, Ordered(lower, page)), budget);
    JoinedSame(BLANK_LINE, selected);
    assert SnapshotOf(lower, page, budget).content == Join(BLANK_LINE, selected);
    assert Selected(lower, page, budget) == Fitting(Same, Image(Text, Ordered(lower, page)), budget);
    hide *;
    JoinedWithinSlot(BLANK_LINE, Same, selected, budget);
  }
}
