/** Which chunks a section too long for one chunk gives: its paragraphs at blank
    lines, the slices of those too long themselves, the headings and the tails. */
module ParagraphChunks {
  import opened Sequences
  import opened Texts
  import opened Chunking
  import opened ChunkingProperties

  // ---- Splitting at blank lines ----

  predicate BlankAt(s: string, k: nat) { k + 1 < |s| && s[k] == '\n' && s[k + 1] == '\n' }

  ghost predicate HasBlankLine(s: string) { exists k: nat :: BlankAt(s, k) }

  predicate EndsLine(s: string) { s != "" && s[|s| - 1] == '\n' }

  /** The parts joined by blank lines are s, none holds a blank line, and each ends at the first one left:
      no part before the last could end a character earlier. */
  ghost predicate SplitAtBlanks(s: string, parts: seq<string>) {
    && parts != [] && Join("\n\n", parts) == s
    && (forall i :: 0 <= i < |parts| ==> !HasBlankLine(parts[i]))
    && (forall i :: 0 <= i < |parts| - 1 ==> !EndsLine(parts[i]))
  }

  /** The first blank line at or after i, if any, is where BlankLine says. */
  lemma {:induction false} BlankLineIsFirst(s: string, i: nat)
    requires i <= |s|
    ensures forall k: nat :: i <= k < BlankLine(s, i) ==> !BlankAt(s, k)
    decreases |s| - i
  {
    if i + 1 >= |s| || BlankAt(s, i) {
    } else {
      BlankLineIsFirst(s, i + 1);
    }
  }

  lemma {:induction false} BlankLineFrom(s: string, i: nat, cut: nat)
    requires i <= cut && BlankAt(s, cut) && forall k: nat :: i <= k < cut ==> !BlankAt(s, k)
    ensures BlankLine(s, i) == cut
    decreases cut - i
  {
    if i == cut {
    } else {
      assert !BlankAt(s, i);
      BlankLineFrom(s, i + 1, cut);
    }
  }

  lemma CutAtFirst(s: string)
    ensures var cut := BlankLine(s, 0);
      && (cut == |s| ==> !HasBlankLine(s))
      && (cut < |s| ==>
            s == s[..cut] + "\n\n" + s[cut + 2..] && !HasBlankLine(s[..cut]) && !EndsLine(s[..cut]))
  {
    hide HasBlankLine, EndsLine, BlankLine, BlankAt;
    var cut := BlankLine(s, 0);
    BlankLineIsFirst(s, 0);
    NoneBefore(s, cut);
    if cut < |s| {
      BlankBetween(s, cut);
      NoLineBefore(s, cut);
    }
  }

  lemma NoneBefore(s: string, cut: nat)
    requires cut <= |s| && forall k: nat :: k < cut ==> !BlankAt(s, k)
    ensures !HasBlankLine(s[..cut])
    ensures cut == |s| ==> s[..cut] == s
  {
    if k: nat :| BlankAt(s[..cut], k) {
      assert BlankAt(s, k);
    }
  }

  lemma NoLineBefore(s: string, cut: nat)
    requires cut < |s| && s[cut] == '\n' && forall k: nat :: k < cut ==> !BlankAt(s, k)
    ensures !EndsLine(s[..cut])
  {
    if cut > 0 {
      var k: nat := cut - 1;
      assert !BlankAt(s, k);
    }
  }

  lemma BlankBetween(s: string, cut: nat)
    requires cut + 2 <= |s| && s[cut] == s[cut + 1] == '\n'
    ensures s == s[..cut] + "\n\n" + s[cut + 2..]
  {
  }

  lemma FirstCut(s: string, first: string, rest: string)
    requires s == first + "\n\n" + rest && !HasBlankLine(first) && !EndsLine(first)
    ensures BlankLine(s, 0) == |first| < |s| && s[..|first|] == first && s[|first| + 2..] == rest
  {
    var cut := |first|;
    assert s[cut] == '\n' && s[cut + 1] == '\n' && BlankAt(s, cut);
    forall k: nat | k < cut ensures !BlankAt(s, k) {
      assert s[k] == first[k];
      if k + 1 < cut {
        assert s[k + 1] == first[k + 1] && !BlankAt(first, k);
      }
    }
    BlankLineFrom(s, 0, cut);
  }

  lemma SplitCons(s: string, first: string, rest: string, parts: seq<string>)
    requires s == first + "\n\n" + rest && !HasBlankLine(first) && !EndsLine(first) && SplitAtBlanks(rest, parts)
    ensures SplitAtBlanks(s, [first] + parts)
  {
    hide HasBlankLine, EndsLine, Join;
    JoinCons("\n\n", first, parts);
  }

  lemma SplitOne(s: string)
    requires !HasBlankLine(s)
    ensures SplitAtBlanks(s, [s])
  {
    hide HasBlankLine;
  }

  /** Splitting is such a split. */
  lemma {:induction false} SplitBlankSplits(s: string)
    ensures SplitAtBlanks(s, SplitBlank(s))
    decreases |s|
  {
    var cut := BlankLine(s, 0);
    assert cut < |s| ==> SplitBlank(s) == [s[..cut]] + SplitBlank(s[cut + 2..]);
    assert cut == |s| ==> SplitBlank(s) == [s];
    hide *;
    CutAtFirst(s);
    if cut == |s| {
      SplitOne(s);
    } else {
      SplitBlankSplits(s[cut + 2..]);
      SplitCons(s, s[..cut], s[cut + 2..], SplitBlank(s[cut + 2..]));
    }
  }

  /** The first part ends where the first blank line starts, and the other parts split what is behind it. */
  lemma FirstPart(s: string, parts: seq<string>)
    requires SplitAtBlanks(s, parts)
    ensures parts != []
    ensures var cut := BlankLine(s, 0);
      && parts[0] == s[..cut] && (|parts| == 1 <==> cut == |s|)
      && (|parts| > 1 ==> SplitAtBlanks(s[cut + 2..], parts[1..]))
  {
    var first := parts[0];
    hide HasBlankLine, EndsLine, BlankLine;
    if |parts| == 1 {
      assert parts == [first] && s == first;
      CutAtFirst(s);
      BlankLineShows(s);
    } else {
      assert parts == [first] + parts[1..];
      JoinCons("\n\n", first, parts[1..]);
      FirstCut(s, first, Join("\n\n", parts[1..]));
    }
  }

  lemma BlankLineShows(s: string)
    ensures BlankLine(s, 0) < |s| ==> HasBlankLine(s)
  {
    assert BlankLine(s, 0) < |s| ==> BlankAt(s, BlankLine(s, 0));
  }

  /** And there is only one. */
  lemma {:induction false} SplitIsUnique(s: string, a: seq<string>, b: seq<string>)
    requires SplitAtBlanks(s, a) && SplitAtBlanks(s, b)
    ensures a == b
    decreases |s|
  {
    hide *;
    FirstPart(s, a);
    FirstPart(s, b);
    assert a == [a[0]] + a[1..] && b == [b[0]] + b[1..];
    if |a| > 1 {
      SplitIsUnique(s[BlankLine(s, 0) + 2..], a[1..], b[1..]);
    } else {
      assert a[1..] == b[1..] == [];
    }
  }

  // ---- Trimming and headings ----

  /** Python's whitespace characters, one by one. */
  const WHITESPACE := "\t\n\U{0b}\U{0c}\r\U{1c}\U{1d}\U{1e}\U{1f} \U{85}\U{a0}\U{1680}"
    + "\U{2000}\U{2001}\U{2002}\U{2003}\U{2004}\U{2005}\U{2006}\U{2007}\U{2008}\U{2009}\U{200a}"
    + "\U{2028}\U{2029}\U{202f}\U{205f}\U{3000}"

  /** t is s without the whitespace around it. */
  ghost predicate Trims(s: string, t: string) {
    exists a: string, b: string :: s == a + t + b
      && (forall c :: c in a + b ==> c in WHITESPACE)
      && (t != "" ==> t[0] !in WHITESPACE && t[|t| - 1] !in WHITESPACE)
  }

  lemma WhitespaceIs(c: char)
    ensures IsSpace(c) <==> c in WHITESPACE
  {
  }

  lemma {:induction false} StripLeftTrims(s: string) returns (a: string)
    ensures s == a + StripLeft(s) && forall c :: c in a ==> IsSpace(c)
  {
    if s == "" || !IsSpace(s[0]) {
      a := "";
    } else {
      var rest := StripLeftTrims(s[1..]);
      a := [s[0]] + rest;
    }
  }

  lemma {:induction false} StripRightTrims(s: string) returns (b: string)
    ensures s == StripRight(s) + b && forall c :: c in b ==> IsSpace(c)
    ensures StripRight(s) != "" ==> !IsSpace(StripRight(s)[|StripRight(s)| - 1])
  {
    if s == "" || !IsSpace(s[|s| - 1]) {
      b := "";
    } else {
      var n := |s| - 1;
      var rest := StripRightTrims(s[..n]);
      b := rest + [s[n]];
    }
  }

  /** A part is stripped of the whitespace around it, and dropped when nothing is left. */
  lemma StripTrims(s: string)
    ensures Trims(s, Strip(s)) && Trims(s, Stripped(s)) && (NonEmpty(s) <==> s != "")
  {
    hide StripLeft, StripRight, IsSpace, Trims;
    var left := StripLeft(s);
    var a := StripLeftTrims(s);
    var b := StripRightTrims(left);
    StripLeftStarts(s);
    assert Strip(s) != "" ==> Strip(s)[0] == left[0];
    TrimsBetween(s, a, Strip(s), b);
  }

  lemma TrimsBetween(s: string, a: string, t: string, b: string)
    requires s == a + (t + b) && (forall c :: c in a ==> IsSpace(c)) && (forall c :: c in b ==> IsSpace(c))
    requires t != "" ==> !IsSpace(t[0]) && !IsSpace(t[|t| - 1])
    ensures Trims(s, t)
  {
    hide IsSpace;
    assert s == a + t + b;
    forall c ensures IsSpace(c) <==> c in WHITESPACE {
      WhitespaceIs(c);
    }
  }

  lemma {:induction false} FirstLineIs(s: string)
    ensures FirstLine(s) <= s && '\n' !in FirstLine(s)
    ensures |FirstLine(s)| < |s| ==> s[|FirstLine(s)|] == '\n'
  {
    if s == "" || s[0] == '\n' {
    } else {
      FirstLineIs(s[1..]);
    }
  }

  // ---- The chunks of a long section ----

  /** What one paragraph of a long section becomes. */
  function ChunksFor(page: Option<int>, max: nat, overlap: nat): string -> seq<Chunk> {
    (para: string) =>
      if |para| <= max then [Chunk(para, Some(FirstLine(para)), page)]
      else if overlap < max then Slices(para, page, max, overlap, 0) else []
  }

  /** A slice holds max characters from its start, or what is left; only the first has a heading, a quarter of
      the paragraph or its first eighty characters. */
  predicate IsSlice(c: Chunk, para: string, page: Option<int>, max: nat, start: nat)
    requires start < |para|
  {
    && c.text == (if start + max < |para| then para[start..start + max] else para[start..])
    && c.heading == (if start > 0 then None
                     else if |para| / 4 < 80 then Some(para[..|para| / 4]) else Some(para[..80]))
    && c.page == page
  }

  function Start(i: nat, k: nat, step: nat): (start: nat)
    ensures start >= i && (k > 0 ==> start >= i + step)
    decreases k
  {
    if k == 0 then i else Start(i + step, k - 1, step)
  }

  lemma {:induction false} StartIs(i: nat, k: nat, step: nat)
    ensures Start(i, k, step) == i + k * step
    decreases k
  {
    if k == 0 {
    } else {
      StartIs(i + step, k - 1, step);
      assert (k - 1) * step + step == k * step;
    }
  }

  lemma {:induction false} SlicesFrom(para: string, page: Option<int>, max: nat, overlap: nat, i: nat, k: nat)
    requires overlap < max
    ensures var start, slices := Start(i, k, max - overlap), Slices(para, page, max, overlap, i);
      && (k < |slices| <==> start < |para|)
      && (k < |slices| ==> IsSlice(slices[k], para, page, max, start))
    decreases k
  {
    if k > 0 && i < |para| {
      SlicesFrom(para, page, max, overlap, i + (max - overlap), k - 1);
    }
  }

  /** Slice k of a paragraph starts at k steps of max - overlap characters, as long as that is inside it. */
  lemma SlicesAt(para: string, page: Option<int>, max: nat, overlap: nat, k: nat)
    requires overlap < max
    ensures var start, slices := k * (max - overlap), Slices(para, page, max, overlap, 0);
      && start >= 0 && (k < |slices| <==> start < |para|)
      && (k < |slices| ==> IsSlice(slices[k], para, page, max, start))
  {
    hide *;
    StartIs(0, k, max - overlap);
    SlicesFrom(para, page, max, overlap, 0, k);
  }

  lemma {:induction false} ParagraphsGive(st: State, paras: seq<string>, page: Option<int>, max: nat, overlap: nat)
    requires forall para :: para in paras ==> para != ""
    ensures var after := AddParagraphs(st, paras, page, max, overlap);
      after.out + Flush(after.buffer)
        == st.out + Flush(st.buffer) + Flatten(Image(ChunksFor(page, max, overlap), paras))
  {
    hide Slices, FirstLine;
    if paras == [] {
      assert Image(ChunksFor(page, max, overlap), paras) == [];
      assert st.out + Flush(st.buffer) + [] == st.out + Flush(st.buffer);
    } else {
      var n := |paras| - 1;
      var front, para := AddParagraphs(st, paras[..n], page, max, overlap), paras[n];
      assert paras == paras[..n] + [para] && para in paras;
      assert forall p :: p in paras[..n] ==> p in paras;
      ParagraphsGive(st, paras[..n], page, max, overlap);
      ImageAppend(ChunksFor(page, max, overlap), paras[..n], para);
      FlattenAppend(Image(ChunksFor(page, max, overlap), paras[..n]), ChunksFor(page, max, overlap)(para));
      OneGives(front, para, page, max, overlap);
      hide AddParagraph, Flatten, ChunksFor, Flush;
      AppendsAgain(st.out + Flush(st.buffer), Flatten(Image(ChunksFor(page, max, overlap), paras[..n])),
                   ChunksFor(page, max, overlap)(para));
    }
  }

  lemma AppendsAgain<A>(a: seq<A>, b: seq<A>, c: seq<A>)
    ensures (a + b) + c == a + (b + c)
  {
  }

  lemma OneGives(st: State, para: string, page: Option<int>, max: nat, overlap: nat)
    requires para != ""
    ensures var after := AddParagraph(st, para, page, max, overlap);
      after.out + Flush(after.buffer) == st.out + Flush(st.buffer) + ChunksFor(page, max, overlap)(para)
  {
    hide Slices, FirstLine;
  }

  lemma ParagraphsAre(s: Section, parts: seq<string>)
    requires SplitAtBlanks(s.text, parts)
    ensures var kept := Keep(NonEmpty, Image(Stripped, parts));
      Paragraphs(s.text) == if kept == [] then [s.text] else kept
  {
    SplitBlankSplits(s.text);
    hide SplitAtBlanks, SplitBlank, Stripped, Keep;
    SplitIsUnique(s.text, parts, SplitBlank(s.text));
  }

  lemma PackedIs(front: seq<Section>, s: Section, max: nat, overlap: nat)
    ensures AddSections(front + [s], max, overlap) == AddSection(AddSections(front, max, overlap), s, max, overlap)
  {
    assert (front + [s])[..|front|] == front;
  }

  /** Wherever a section longer than max ends the list, it adds the chunks of its paragraphs, in order: the
      stripped parts between blank lines that are not empty, or the whole text when there are none. */
  lemma LongSectionChunks(front: seq<Section>, s: Section, max: nat, overlap: nat, parts: seq<string>)
    requires |s.text| > max && SplitAtBlanks(s.text, parts)
    ensures var kept := Keep(NonEmpty, Image(Stripped, parts));
      Packed(front + [s], max, overlap)
        == Packed(front, max, overlap)
           + Flatten(Image(ChunksFor(s.page, max, overlap), if kept == [] then [s.text] else kept))
  {
    hide *;
    ParagraphsAre(s, parts);
    ParagraphsHaveText(s);
    LongSectionAdds(front, s, max, overlap);
    ParagraphsGive(State(Packed(front, max, overlap), NO_BUFFER), Paragraphs(s.text), s.page, max, overlap);
    assert Packed(front, max, overlap) + [] == Packed(front, max, overlap);
  }

  lemma ParagraphsHaveText(s: Section)
    ensures s.text != "" ==> forall para :: para in Paragraphs(s.text) ==> para != ""
  {
  }

  lemma LongSectionAdds(front: seq<Section>, s: Section, max: nat, overlap: nat)
    requires |s.text| > max
    ensures Flush(NO_BUFFER) == []
    ensures var after := AddParagraphs(State(Packed(front, max, overlap), NO_BUFFER), Paragraphs(s.text), s.page, max,
                                       overlap);
      Packed(front + [s], max, overlap) == after.out + Flush(after.buffer)
  {
    PackedIs(front, s, max, overlap);
    hide AddSections, AddParagraphs, Paragraphs;
  }

  /** When all paragraphs fit there is exactly one chunk for each, with its first line as heading and the page of
      the section, and splitting raises no error. */
  lemma FittingParagraphs(front: seq<Section>, s: Section, max: nat, overlap: nat, parts: seq<string>)
    requires |s.text| > max && SplitAtBlanks(s.text, parts)
    requires Keep(NonEmpty, Image(Stripped, parts)) != []
    requires forall para :: para in Keep(NonEmpty, Image(Stripped, parts)) ==> |para| <= max
    ensures var paras := Keep(NonEmpty, Image(Stripped, parts));
      var before, after := Packed(front, max, overlap), Packed(front + [s], max, overlap);
      && |after| == |before| + |paras| && after[..|before|] == before
      && forall k :: 0 <= k < |paras| ==>
           var chunk := after[|before| + k];
           chunk.text == paras[k] && chunk.heading == Some(FirstLine(paras[k])) && chunk.page == s.page
    ensures !NeedsZeroStep([s], max, overlap)
  {
    hide *;
    LongSectionChunks(front, s, max, overlap, parts);
    SingleChunks(Keep(NonEmpty, Image(Stripped, parts)), s.page, max, overlap);
    NoStepNeeded(s, max, overlap, parts);
  }

  lemma NoStepNeeded(s: Section, max: nat, overlap: nat, parts: seq<string>)
    requires SplitAtBlanks(s.text, parts) && Keep(NonEmpty, Image(Stripped, parts)) != []
    requires forall para :: para in Keep(NonEmpty, Image(Stripped, parts)) ==> |para| <= max
    ensures !NeedsZeroStep([s], max, overlap)
  {
    ParagraphsAre(s, parts);
    hide SplitAtBlanks, Paragraphs, Stripped, Keep;
  }

  lemma {:induction false} SingleChunks(paras: seq<string>, page: Option<int>, max: nat, overlap: nat)
    requires forall para :: para in paras ==> |para| <= max
    ensures var chunks := Flatten(Image(ChunksFor(page, max, overlap), paras));
      && |chunks| == |paras|
      && forall k :: 0 <= k < |paras| ==> chunks[k] == Chunk(paras[k], Some(FirstLine(paras[k])), page)
  {
    hide *;
    if paras == [] {
      assert Image(ChunksFor(page, max, overlap), paras) == [];
      NothingFlat();
    } else {
      var n := |paras| - 1;
      assert paras == paras[..n] + [paras[n]] && paras[n] in paras;
      assert forall p :: p in paras[..n] ==> p in paras;
      SingleChunks(paras[..n], page, max, overlap);
      OneChunk(paras[n], page, max, overlap);
      ImageAppend(ChunksFor(page, max, overlap), paras[..n], paras[n]);
      FlattenAppend(Image(ChunksFor(page, max, overlap), paras[..n]), ChunksFor(page, max, overlap)(paras[n]));
    }
  }

  lemma NothingFlat()
    ensures Flatten<Chunk>([]) == []
  {
  }

  lemma OneChunk(para: string, page: Option<int>, max: nat, overlap: nat)
    requires |para| <= max
    ensures ChunksFor(page, max, overlap)(para) == [Chunk(para, Some(FirstLine(para)), page)]
  {
  }

  /** Splitting divides by a zero step exactly when overlap and max agree and some section too long for a chunk has
      no paragraphs or one too long as well. */
  lemma ZeroStepExactly(front: seq<Section>, s: Section, max: nat, overlap: nat, parts: seq<string>)
    requires SplitAtBlanks(s.text, parts)
    ensures !NeedsZeroStep([], max, overlap)
    ensures var kept := Keep(NonEmpty, Image(Stripped, parts));
      NeedsZeroStep(front + [s], max, overlap) <==>
        || NeedsZeroStep(front, max, overlap)
        || (max == overlap && |s.text| > max && (kept == [] || exists para :: para in kept && |para| > max))
  {
    ParagraphsAre(s, parts);
    hide Paragraphs, Stripped, Keep;
    OversizedIs(s, max, Keep(NonEmpty, Image(Stripped, parts)));
    hide Oversized;
    assert forall x :: x in front + [s] <==> x in front || x == s;
  }

  lemma OversizedIs(s: Section, max: nat, kept: seq<string>)
    requires Paragraphs(s.text) == if kept == [] then [s.text] else kept
    ensures Oversized(s, max) <==> |s.text| > max && (kept == [] || exists para :: para in kept && |para| > max)
  {
    hide Paragraphs;
  }

  /** The last chunk is still open after a section that fits, and after a long one whose last paragraph fits. */
  lemma BufferStaysOpen(front: seq<Section>, max: nat, overlap: nat, parts: seq<string>)
    requires front != [] ==> front[|front| - 1].text != "" && SplitAtBlanks(front[|front| - 1].text, parts)
    ensures AddSections(front, max, overlap).buffer.text != "" <==> EndsOpen(front, max, parts)
  {
    if front != [] {
      var n := |front| - 1;
      var s := front[n];
      ParagraphsAre(s, parts);
      hide SplitAtBlanks, Stripped, Keep, Slices, FirstLine;
      var kept := Keep(NonEmpty, Image(Stripped, parts));
      if |s.text| > max {
        assert kept != [] ==> kept[|kept| - 1] in kept;
        assert AddSections(front, max, overlap) == AddSection(AddSections(front[..n], max, overlap), s, max, overlap);
      }
    }
  }

  predicate EndsOpen(front: seq<Section>, max: nat, parts: seq<string>) {
    && front != []
    && (|front[|front| - 1].text| > max ==>
          var kept := Keep(NonEmpty, Image(Stripped, parts));
          kept != [] && |kept[|kept| - 1]| <= max)
  }

  /** A section that fits joins the last chunk when that one is open and has room for a blank line and the section;
      its page stays when both agree. Otherwise the section is a chunk of its own. */
  lemma ShortSectionChunk(front: seq<Section>, s: Section, max: nat, overlap: nat, parts: seq<string>)
    requires |s.text| <= max
    requires front != [] ==> front[|front| - 1].text != "" && SplitAtBlanks(front[|front| - 1].text, parts)
    ensures var before, after := Packed(front, max, overlap), Packed(front + [s], max, overlap);
      var n := |before| - 1;
      if EndsOpen(front, max, parts) && n >= 0 && |before[n].text| + 2 + |s.text| <= max then
        after == before[..n] + [Chunk(before[n].text + "\n\n" + s.text, before[n].heading,
                                      if before[n].page == s.page then s.page else None)]
      else after == before + if s.text == "" then [] else [Chunk(s.text, Some(FirstLine(s.text)), s.page)]
    ensures EndsOpen(front, max, parts) ==> Packed(front, max, overlap) != []
  {
    BufferStaysOpen(front, max, overlap, parts);
    hide AddSections, EndsOpen, SplitAtBlanks, FirstLine;
    PackedIs(front, s, max, overlap);
    var st := AddSections(front, max, overlap);
    if st.buffer.text != "" {
      assert (st.out + [st.buffer])[..|st.out|] == st.out;
    }
  }

  /** The overlap pass puts the last overlap characters of the chunk before in front of each later chunk, all of
      it when it is no longer or the overlap is zero; a chunk without heading takes its new text as one. */
  lemma OverlappedAt(chunks: seq<Chunk>, overlap: nat, i: nat)
    requires i < |chunks|
    ensures var c, after := chunks[i], WithOverlap(chunks, overlap)[i];
      && after.page == c.page && (i == 0 ==> after == c)
      && (i > 0 ==>
            var before := chunks[i - 1].text;
            var start := if 0 < overlap < |before| then |before| - overlap else 0;
            && after.text == before[start..] + c.text
            && after.heading == if c.heading.Some? && c.heading.value != "" then c.heading else Some(after.text))
  {
  }
}
