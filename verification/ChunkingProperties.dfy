/** What the chunker guarantees: bounded chunks, an invertible overlap, no
    text lost, and as few chunks as any grouping of the sections allows. */
module ChunkingProperties {
  import opened Sequences
  import opened Texts
  import opened Chunking

  // ---- Sizes ----

  ghost predicate Sized(chunks: seq<Chunk>, max: nat) {
    forall c :: c in chunks ==> 0 < |c.text| <= max
  }

  lemma {:induction false} SlicesSized(para: string, page: Option<int>, max: nat, overlap: nat, i: nat)
    requires overlap < max
    ensures Sized(Slices(para, page, max, overlap, i), max)
    decreases |para| - i
  {
    if i >= |para| {
    } else {
      SlicesSized(para, page, max, overlap, i + (max - overlap));
    }
  }

  lemma {:induction false} ParagraphsSized(st: State, paras: seq<string>, page: Option<int>, max: nat, overlap: nat)
    requires Sized(st.out, max) && |st.buffer.text| <= max
    ensures var after := AddParagraphs(st, paras, page, max, overlap);
      Sized(after.out, max) && |after.buffer.text| <= max
  {
    if paras == [] {
    } else {
      var n := |paras| - 1;
      ParagraphsSized(st, paras[..n], page, max, overlap);
      if overlap < max {
        SlicesSized(paras[n], page, max, overlap, 0);
      }
    }
  }

  lemma {:induction false} SectionsSized(sections: seq<Section>, max: nat, overlap: nat)
    ensures var st := AddSections(sections, max, overlap); Sized(st.out, max) && |st.buffer.text| <= max
  {
    if sections == [] {
    } else {
      var n := |sections| - 1;
      SectionsSized(sections[..n], max, overlap);
      var st := AddSections(sections[..n], max, overlap);
      ParagraphsSized(State(st.out + Flush(st.buffer), NO_BUFFER), Paragraphs(sections[n].text), sections[n].page, max,
                      overlap);
    }
  }

  /** Before the overlap pass every chunk is non-empty and within max; after it, with a
      positive overlap, within max + overlap. */
  lemma ChunkSizes(sections: seq<Section>, max: nat, overlap: nat)
    ensures Sized(Packed(sections, max, overlap), max)
    ensures overlap > 0 ==> Sized(WithOverlap(Packed(sections, max, overlap), overlap), max + overlap)
  {
    SectionsSized(sections, max, overlap);
    var packed := Packed(sections, max, overlap);
    if overlap > 0 {
      forall i | 0 <= i < |packed| ensures 0 < |Overlapped(packed, overlap, i).text| <= max + overlap {
        assert packed[i] in packed;
      }
    }
  }

  /** With no overlap the tail is the whole previous chunk, so chunks double. */
  lemma ZeroOverlapRepeatsChunks(chunks: seq<Chunk>, i: nat)
    requires 0 < i < |chunks|
    ensures WithOverlap(chunks, 0)[i].text == chunks[i - 1].text + chunks[i].text
  {
  }

  /** Chunk i fits behind the tail of the chunk before it. */
  predicate FitsBehind(chunks: seq<Chunk>, overlap: nat, max: nat, i: nat)
    requires 0 < i < |chunks|
  {
    |Tail(chunks[i - 1].text, overlap)| + |chunks[i].text| <= max
  }

  /** For every overlap, chunks within max stay within it exactly when each chunk
      fits behind the tail of the one before. */
  lemma OverlapBoundExactly(chunks: seq<Chunk>, overlap: nat, max: nat)
    requires Sized(chunks, max)
    ensures Sized(WithOverlap(chunks, overlap), max)
       <==> forall i :: 0 < i < |chunks| ==> FitsBehind(chunks, overlap, max, i)
  {
    var after := WithOverlap(chunks, overlap);
    forall i | 0 <= i < |chunks|
      ensures 0 < |after[i].text| == |chunks[i].text| + if i > 0 then |Tail(chunks[i - 1].text, overlap)| else 0
    {
      assert chunks[i] in chunks;
    }
    hide Tail;
    if Sized(after, max) {
      forall i | 0 < i < |chunks| ensures FitsBehind(chunks, overlap, max, i) {
        assert after[i] in after;
      }
    }
    if forall i :: 0 < i < |chunks| ==> FitsBehind(chunks, overlap, max, i) {
      forall c | c in after ensures 0 < |c.text| <= max {
        var i :| 0 <= i < |after| && after[i] == c;
        assert chunks[i] in chunks && (i > 0 ==> FitsBehind(chunks, overlap, max, i));
      }
    }
  }

  function Filled(max: nat): Section {
    Section(seq(max, _ => 'x'), None)
  }

  /** Two sections of max characters leave a chunk longer than max, whatever the overlap. */
  lemma TwoFullSectionsOverflow(max: nat, overlap: nat)
    requires max > 0
    ensures Packed([Filled(max), Filled(max)], max, overlap)
        == [Opened(Filled(max).text, None), Opened(Filled(max).text, None)]
    ensures !Sized(WithOverlap(Packed([Filled(max), Filled(max)], max, overlap), overlap), max)
  {
    var s := Filled(max);
    var chunk := Opened(s.text, None);
    hide FirstLine;
    assert [s][..0] == [] && [s, s][..1] == [s];
    assert AddSections([s], max, overlap) == State([], chunk);
    assert AddSections([s, s], max, overlap) == State([chunk], chunk);
    var packed := Packed([s, s], max, overlap);
    assert packed == [chunk] + [chunk] == [chunk, chunk];
    OverlapBoundExactly(packed, overlap, max);
    assert !FitsBehind(packed, overlap, max, 1);
  }

  // ---- The overlap pass can be undone ----

  function Drop(s: string, n: nat): string { if |s| <= n then "" else s[n..] }

  /** The texts before the overlap pass, computed from the texts after it. */
  function Restored(chunks: seq<Chunk>, overlap: nat): (r: seq<string>)
    ensures |r| == |chunks|
  {
    if chunks == [] then []
    else
      var n := |chunks| - 1;
      var before := Restored(chunks[..n], overlap);
      before + [if n == 0 then chunks[0].text else Drop(chunks[n].text, |Tail(before[n - 1], overlap)|)]
  }

  lemma {:induction false} OverlapIsInvertible(chunks: seq<Chunk>, overlap: nat)
    ensures Restored(WithOverlap(chunks, overlap), overlap) == Image(ChunkText, chunks)
  {
    hide Tail, Restored;
    if chunks == [] {
      NothingRestored(overlap);
      assert WithOverlap(chunks, overlap) == [] && Image(ChunkText, chunks) == [];
    } else {
      var n := |chunks| - 1;
      OverlapIsInvertible(chunks[..n], overlap);
      OverlapOfPrefix(chunks, overlap);
      hide WithOverlap;
      assert Image(ChunkText, chunks)[..n] == Image(ChunkText, chunks[..n]);
      RestoresLast(WithOverlap(chunks, overlap), Image(ChunkText, chunks), overlap);
    }
  }

  lemma NothingRestored(overlap: nat)
    ensures Restored([], overlap) == []
  {
  }

  lemma OverlapOfPrefix(chunks: seq<Chunk>, overlap: nat)
    requires chunks != []
    ensures var n := |chunks| - 1;
      && WithOverlap(chunks, overlap)[..n] == WithOverlap(chunks[..n], overlap)
      && WithOverlap(chunks, overlap)[n].text
        == (if n == 0 then "" else Tail(chunks[n - 1].text, overlap)) + chunks[n].text
  {
    hide Tail;
  }

  lemma RestoresLast(chunks: seq<Chunk>, texts: seq<string>, overlap: nat)
    requires |chunks| == |texts| > 0
    requires Restored(chunks[..|chunks| - 1], overlap) == texts[..|chunks| - 1]
    requires chunks[|chunks| - 1].text
      == (if |chunks| == 1 then "" else Tail(texts[|chunks| - 2], overlap)) + texts[|chunks| - 1]
    ensures Restored(chunks, overlap) == texts
  {
    var n := |chunks| - 1;
    hide Tail;
    assert Restored(chunks, overlap)[n] == texts[n];
  }

  // ---- No text is lost ----

  /** A chunk without heading continues a slice: its first overlap characters repeat the slice before. */
  function NewPart(overlap: nat): Chunk -> string {
    (c: Chunk) => if c.heading.None? then Drop(c.text, overlap) else c.text
  }

  function NewText(chunks: seq<Chunk>, overlap: nat): string { Concat(Image(NewPart(overlap), chunks)) }

  lemma NewTextConcat(s: seq<Chunk>, t: seq<Chunk>, overlap: nat)
    ensures NewText(s + t, overlap) == NewText(s, overlap) + NewText(t, overlap)
  {
    ImageConcat(NewPart(overlap), s, t);
    ConcatConcat(Image(NewPart(overlap), s), Image(NewPart(overlap), t));
  }

  lemma NewTextOfNone(overlap: nat)
    ensures NewText([], overlap) == ""
  {
    assert Image(NewPart(overlap), []) == [];
  }

  lemma NewTextOfOne(c: Chunk, overlap: nat)
    ensures NewText([c], overlap) == NewPart(overlap)(c)
  {
    assert Image(NewPart(overlap), [c]) == [NewPart(overlap)(c)];
    assert Concat([NewPart(overlap)(c)]) == NewPart(overlap)(c);
  }

  lemma SlicesUnroll(para: string, page: Option<int>, max: nat, overlap: nat, i: nat)
    requires overlap < max && i < |para|
    ensures Slices(para, page, max, overlap, i)
         == [Slice(para, page, max, i)] + Slices(para, page, max, overlap, i + (max - overlap))
  {
  }

  lemma SliceContinues(para: string, max: nat, overlap: nat, i: nat)
    requires overlap < max && i < |para|
    ensures Drop(para[i..Least(i + max, |para|)], overlap) + Drop(para, i + max) == Drop(para, i + overlap)
  {
    var slice := para[i..Least(i + max, |para|)];
    if i + overlap < |para| {
      assert Drop(slice, overlap) == para[i + overlap..Least(i + max, |para|)];
    }
  }

  lemma SlicePrepended(para: string, page: Option<int>, max: nat, overlap: nat, i: nat, rest: seq<Chunk>)
    requires overlap < max && 0 < i < |para|
    requires Slices(para, page, max, overlap, i) == [Slice(para, page, max, i)] + rest
    requires NewText(rest, overlap) == Drop(para, i + max)
    ensures NewText(Slices(para, page, max, overlap, i), overlap) == Drop(para, i + overlap)
  {
    hide Slices;
    NewTextCons(Slice(para, page, max, i), rest, overlap);
    hide NewText;
    SliceContinues(para, max, overlap, i);
  }

  lemma NoSliceLeft(para: string, page: Option<int>, max: nat, overlap: nat, i: nat)
    requires overlap < max && |para| <= i
    ensures NewText(Slices(para, page, max, overlap, i), overlap) == Drop(para, i + overlap)
  {
    NewTextOfNone(overlap);
  }

  lemma {:induction false} LaterSlicesCover(para: string, page: Option<int>, max: nat, overlap: nat, i: nat)
    requires overlap < max && i > 0
    ensures NewText(Slices(para, page, max, overlap, i), overlap) == Drop(para, i + overlap)
    decreases |para| - i
  {
    if i < |para| {
      var next := i + (max - overlap);
      LaterSlicesCover(para, page, max, overlap, next);
      SlicesUnroll(para, page, max, overlap, i);
      hide *;
      assert next + overlap == i + max;
      SlicePrepended(para, page, max, overlap, i, Slices(para, page, max, overlap, next));
    } else {
      NoSliceLeft(para, page, max, overlap, i);
    }
  }

  /** An oversized paragraph is recovered from its slices. */
  lemma SlicesRecoverParagraph(para: string, page: Option<int>, max: nat, overlap: nat)
    requires overlap < max
    ensures NewText(Slices(para, page, max, overlap, 0), overlap) == para
  {
    if para == "" {
      assert Image(NewPart(overlap), []) == [];
    } else {
      SlicesUnroll(para, page, max, overlap, 0);
      hide Slices;
      LaterSlicesCover(para, page, max, overlap, max - overlap);
      NewTextCons(Slice(para, page, max, 0), Slices(para, page, max, overlap, max - overlap), overlap);
      hide NewText;
      assert para[0..Least(max, |para|)] + Drop(para, max) == para;
    }
  }

  lemma NewTextCons(c: Chunk, rest: seq<Chunk>, overlap: nat)
    ensures NewText([c] + rest, overlap)
        == (if c.heading.None? then Drop(c.text, overlap) else c.text) + NewText(rest, overlap)
  {
    NewTextConcat([c], rest, overlap);
    NewTextOfOne(c, overlap);
  }

  ghost predicate Headed(st: State) { st.buffer.text != "" ==> st.buffer.heading.Some? }

  function StateText(st: State, overlap: nat): string { NewText(st.out + Flush(st.buffer), overlap) }

  lemma FlushText(st: State, c: Chunk, overlap: nat)
    requires c.text != "" ==> c.heading.Some?
    ensures StateText(State(st.out + Flush(st.buffer), c), overlap) == StateText(st, overlap) + c.text
  {
    NewTextConcat(st.out + Flush(st.buffer), Flush(c), overlap);
    if c.text == "" {
      assert Image(NewPart(overlap), []) == [];
    } else {
      NewTextOfOne(c, overlap);
    }
  }

  lemma AddParagraphText(st: State, para: string, page: Option<int>, max: nat, overlap: nat)
    requires overlap < max && Headed(st)
    ensures var after := AddParagraph(st, para, page, max, overlap);
      Headed(after) && StateText(after, overlap) == StateText(st, overlap) + para
  {
    if |para| <= max {
      FlushText(st, Opened(para, page), overlap);
    } else {
      var slices := Slices(para, page, max, overlap, 0);
      SlicesRecoverParagraph(para, page, max, overlap);
      NewTextConcat(st.out + Flush(st.buffer), slices, overlap);
      var out := st.out + Flush(st.buffer) + slices;
      assert out + Flush(NO_BUFFER) == out;
    }
  }

  lemma {:induction false} AddParagraphsText(st: State, paras: seq<string>, page: Option<int>, max: nat, overlap: nat)
    requires overlap < max && Headed(st)
    ensures var after := AddParagraphs(st, paras, page, max, overlap);
      Headed(after) && StateText(after, overlap) == StateText(st, overlap) + Concat(paras)
  {
    hide *;
    if paras == [] {
      AddNoParagraphs(st, page, max, overlap);
    } else {
      var n := |paras| - 1;
      var front := AddParagraphs(st, paras[..n], page, max, overlap);
      AddParagraphsText(st, paras[..n], page, max, overlap);
      AddParagraphText(front, paras[n], page, max, overlap);
      AddParagraphsNext(st, paras, n, page, max, overlap);
      assert paras[..n + 1] == paras && paras == paras[..n] + [paras[n]];
      ConcatAppend(paras[..n], paras[n]);
      JoinsTheSame(StateText(st, overlap), Concat(paras[..n]), paras[n]);
    }
  }

  lemma AddNoParagraphs(st: State, page: Option<int>, max: nat, overlap: nat)
    ensures AddParagraphs(st, [], page, max, overlap) == st
    ensures StateText(st, overlap) + Concat([]) == StateText(st, overlap)
  {
  }

  lemma JoinsTheSame(a: string, b: string, c: string)
    ensures (a + b) + c == a + (b + c)
  {
  }

  lemma {:induction false} ConcatOfKept(parts: seq<string>)
    ensures Concat(Keep(NonEmpty, parts)) == Concat(parts)
  {
    if parts == [] {
    } else {
      var n := |parts| - 1;
      ConcatOfKept(parts[..n]);
      if NonEmpty(parts[n]) {
        ConcatAppend(Keep(NonEmpty, parts[..n]), parts[n]);
      } else {
        assert Keep(NonEmpty, parts) == Keep(NonEmpty, parts[..n]);
      }
    }
  }

  lemma {:induction false} ConcatOfStripped(parts: seq<string>)
    ensures Ink(Concat(Image(Stripped, parts))) == Ink(Concat(parts))
  {
    if parts == [] {
    } else {
      var n := |parts| - 1;
      ConcatOfStripped(parts[..n]);
      assert Image(Stripped, parts)[..n] == Image(Stripped, parts[..n]);
      InkConcat(Concat(Image(Stripped, parts[..n])), Strip(parts[n]));
      InkConcat(Concat(parts[..n]), parts[n]);
      StripInk(parts[n]);
    }
  }

  lemma ParagraphsInk(text: string)
    ensures Ink(Concat(Paragraphs(text))) == Ink(text)
  {
    ConcatOfKept(Image(Stripped, SplitBlank(text)));
    ConcatOfStripped(SplitBlank(text));
    SplitBlankInk(text);
    assert Concat([text]) == text;
  }

  lemma AddSectionInk(st: State, s: Section, max: nat, overlap: nat)
    requires overlap < max && Headed(st)
    ensures var after := AddSection(st, s, max, overlap);
      Headed(after) && Ink(StateText(after, overlap)) == Ink(StateText(st, overlap)) + Ink(s.text)
  {
    hide Ink;
    hide Paragraphs;
    hide AddParagraphs;
    hide StateText;
    hide Concat;
    hide FirstLine;
    if |s.text| > max {
      FlushText(st, NO_BUFFER, overlap);
      var flushed := State(st.out + Flush(st.buffer), NO_BUFFER);
      assert StateText(flushed, overlap) == StateText(st, overlap);
      AddParagraphsText(flushed, Paragraphs(s.text), s.page, max, overlap);
      ParagraphsInk(s.text);
      InkConcat(StateText(st, overlap), Concat(Paragraphs(s.text)));
    } else if |st.buffer.text| + |s.text| + 2 <= max {
      ExtendedInk(st, s, overlap);
    } else {
      FlushText(st, Opened(s.text, s.page), overlap);
      InkConcat(StateText(st, overlap), s.text);
    }
  }

  lemma ExtendedInk(st: State, s: Section, overlap: nat)
    requires Headed(st)
    ensures Ink(StateText(State(st.out, Extended(st.buffer, s)), overlap)) == Ink(StateText(st, overlap)) + Ink(s.text)
  {
    hide Ink;
    hide StateText;
    hide FirstLine;
    var before := State(st.out, NO_BUFFER);
    assert st.out + Flush(NO_BUFFER) == st.out;
    assert State(before.out + Flush(before.buffer), st.buffer) == st;
    FlushText(before, st.buffer, overlap);
    FlushText(before, Extended(st.buffer, s), overlap);
    var head := StateText(before, overlap);
    InkConcat(head, st.buffer.text);
    InkConcat(head, Extended(st.buffer, s).text);
    if st.buffer.text == "" {
      EmptyHasNoInk();
    } else {
      InkConcat(st.buffer.text + BLANK, s.text);
      InkConcat(st.buffer.text, BLANK);
      BlankLineHasNoInk();
      assert Ink(st.buffer.text + BLANK) == Ink(st.buffer.text);
    }
    calc {
      Ink(StateText(State(st.out, Extended(st.buffer, s)), overlap));
      Ink(head) + Ink(Extended(st.buffer, s).text);
      Ink(head) + (Ink(st.buffer.text) + Ink(s.text));
      (Ink(head) + Ink(st.buffer.text)) + Ink(s.text);
    }
  }

  lemma EmptyHasNoInk()
    ensures Ink("") == ""
  {
  }

  lemma BlankLineHasNoInk()
    ensures Ink(BLANK) == ""
  {
    KeepNone(IsInk, BLANK);
  }

  /** Chunking adds and removes nothing but whitespace: for every input, the new parts of
      the chunks spell the sections, character by character and in order. */
  lemma {:induction false} NothingIsLost(sections: seq<Section>, max: nat, overlap: nat)
    requires overlap < max
    ensures Ink(NewText(Packed(sections, max, overlap), overlap)) == Ink(Concat(Image(SectionText, sections)))
    ensures Headed(AddSections(sections, max, overlap))
  {
    assert NewText(Packed(sections, max, overlap), overlap) == StateText(AddSections(sections, max, overlap), overlap);
    hide NewText;
    hide StateText;
    hide Ink;
    hide Concat;
    hide AddSection;
    if sections == [] {
      EmptyText(overlap);
    } else {
      var n := |sections| - 1;
      NothingIsLost(sections[..n], max, overlap);
      AddSectionInk(AddSections(sections[..n], max, overlap), sections[n], max, overlap);
      SectionTextGrows(sections);
    }
  }

  lemma EmptyText(overlap: nat)
    ensures StateText(State([], NO_BUFFER), overlap) == "" == Concat(Image(SectionText, []))
  {
    assert Image(NewPart(overlap), []) == [];
    assert Image(SectionText, []) == [];
  }

  lemma SectionTextGrows(sections: seq<Section>)
    requires sections != []
    ensures var n := |sections| - 1;
      Ink(Concat(Image(SectionText, sections)))
        == Ink(Concat(Image(SectionText, sections[..n]))) + Ink(sections[n].text)
  {
    var n := |sections| - 1;
    assert Image(SectionText, sections) == Image(SectionText, sections[..n]) + [sections[n].text];
    ConcatAppend(Image(SectionText, sections[..n]), sections[n].text);
    InkConcat(Concat(Image(SectionText, sections[..n])), sections[n].text);
  }

  // ---- With an overlap of max or more, oversized paragraphs vanish ----

  function FitsIn(max: nat): string -> bool { (para: string) => |para| <= max }

  /** What is kept of a section when no paragraph can be sliced. */
  function KeptText(max: nat): Section -> string {
    (s: Section) => if |s.text| <= max then s.text else Concat(Keep(FitsIn(max), Paragraphs(s.text)))
  }

  lemma FittingParagraphText(st: State, para: string, page: Option<int>, max: nat, overlap: nat)
    requires overlap >= max && Headed(st)
    ensures var after := AddParagraph(st, para, page, max, overlap);
      Headed(after) && StateText(after, overlap) == StateText(st, overlap) + if |para| <= max then para else ""
  {
    hide StateText, FirstLine;
    if |para| <= max {
      FlushText(st, Opened(para, page), overlap);
    } else {
      FlushText(st, NO_BUFFER, overlap);
      assert st.out + Flush(st.buffer) + [] == st.out + Flush(st.buffer);
    }
  }

  lemma FittingTextNext(paras: seq<string>, para: string, max: nat)
    ensures Concat(Keep(FitsIn(max), paras + [para]))
      == Concat(Keep(FitsIn(max), paras)) + if |para| <= max then para else ""
  {
    KeepAppend(FitsIn(max), paras, para);
    var kept := Keep(FitsIn(max), paras);
    ConcatAppend(kept, para);
    assert kept + [] == kept && Concat(kept) + "" == Concat(kept);
  }

  lemma {:induction false} FittingParagraphsText(st: State, paras: seq<string>, page: Option<int>, max: nat,
                                                 overlap: nat)
    requires overlap >= max && Headed(st)
    ensures var after := AddParagraphs(st, paras, page, max, overlap);
      Headed(after) && StateText(after, overlap) == StateText(st, overlap) + Concat(Keep(FitsIn(max), paras))
  {
    hide *;
    if paras == [] {
      NoParagraphs(st, page, max, overlap);
    } else {
      var n := |paras| - 1;
      var front, before := paras[..n], AddParagraphs(st, paras[..n], page, max, overlap);
      assert paras == front + [paras[n]] && paras[..n + 1] == paras;
      FittingParagraphsText(st, front, page, max, overlap);
      AddParagraphsNext(st, paras, n, page, max, overlap);
      FittingParagraphText(before, paras[n], page, max, overlap);
      FittingTextNext(front, paras[n], max);
    }
  }

  lemma NoParagraphs(st: State, page: Option<int>, max: nat, overlap: nat)
    ensures AddParagraphs(st, [], page, max, overlap) == st
    ensures StateText(st, overlap) + Concat(Keep(FitsIn(max), [])) == StateText(st, overlap)
  {
    hide StateText;
  }

  lemma KeptSectionInk(st: State, s: Section, max: nat, overlap: nat)
    requires overlap >= max && Headed(st)
    ensures var after := AddSection(st, s, max, overlap);
      Headed(after) && Ink(StateText(after, overlap)) == Ink(StateText(st, overlap)) + Ink(KeptText(max)(s))
  {
    hide Ink, Paragraphs, AddParagraphs, StateText, Concat, FirstLine;
    if |s.text| > max {
      FlushText(st, NO_BUFFER, overlap);
      var flushed := State(st.out + Flush(st.buffer), NO_BUFFER);
      assert StateText(flushed, overlap) == StateText(st, overlap);
      FittingParagraphsText(flushed, Paragraphs(s.text), s.page, max, overlap);
      InkConcat(StateText(st, overlap), KeptText(max)(s));
    } else if |st.buffer.text| + |s.text| + 2 <= max {
      ExtendedInk(st, s, overlap);
    } else {
      FlushText(st, Opened(s.text, s.page), overlap);
      InkConcat(StateText(st, overlap), s.text);
    }
  }

  lemma {:induction false} PackedKeeps(sections: seq<Section>, max: nat, overlap: nat)
    requires overlap >= max
    ensures Headed(AddSections(sections, max, overlap))
    ensures Ink(StateText(AddSections(sections, max, overlap), overlap)) == Ink(Concat(Image(KeptText(max), sections)))
  {
    hide StateText, Ink, Concat, AddSection, KeptText;
    if sections == [] {
      EmptyText(overlap);
      assert Image(KeptText(max), sections) == Image(SectionText, []) == [];
    } else {
      var n := |sections| - 1;
      var kept := Image(KeptText(max), sections[..n]);
      PackedKeeps(sections[..n], max, overlap);
      KeptSectionInk(AddSections(sections[..n], max, overlap), sections[n], max, overlap);
      assert Image(KeptText(max), sections) == kept + [KeptText(max)(sections[n])];
      ConcatAppend(kept, KeptText(max)(sections[n]));
      InkConcat(Concat(kept), KeptText(max)(sections[n]));
    }
  }

  lemma StrippedStartsWithInk(s: string)
    ensures Strip(s) != "" ==> Ink(Strip(s)) != ""
  {
    StripLeftStarts(s);
    StripRightKeepsFirst(StripLeft(s));
    var t := Strip(s);
    if t != "" {
      assert t[0] in t && IsInk(t[0]);
      assert t[0] in Ink(t);
    }
  }

  lemma {:induction false} StripLeftStarts(s: string)
    ensures StripLeft(s) != "" ==> !IsSpace(StripLeft(s)[0])
  {
    if s == "" || !IsSpace(s[0]) {
    } else {
      StripLeftStarts(s[1..]);
    }
  }

  lemma {:induction false} StripRightKeepsFirst(s: string)
    ensures StripRight(s) != "" ==> s != "" && StripRight(s)[0] == s[0]
  {
    if s == "" || !IsSpace(s[|s| - 1]) {
    } else {
      StripRightKeepsFirst(s[..|s| - 1]);
    }
  }

  /** A paragraph of a section that is not blank has ink. */
  lemma ParagraphHasInk(text: string, para: string)
    requires para in Paragraphs(text) && Ink(text) != ""
    ensures Ink(para) != ""
  {
    var stripped := Image(Stripped, SplitBlank(text));
    if Keep(NonEmpty, stripped) == [] {
      assert para == text;
    } else {
      assert para in stripped && para != "";
      var i :| 0 <= i < |stripped| && stripped[i] == para;
      assert para == Strip(SplitBlank(text)[i]);
      StrippedStartsWithInk(SplitBlank(text)[i]);
    }
  }

  /** Dropping a part with ink loses ink. */
  lemma {:induction false} DroppedInk(p: string -> bool, parts: seq<string>)
    ensures |Ink(Concat(Keep(p, parts)))| <= |Ink(Concat(parts))|
    ensures (exists part :: part in parts && !p(part) && Ink(part) != "") ==>
      |Ink(Concat(Keep(p, parts)))| < |Ink(Concat(parts))|
  {
    hide Ink;
    if parts == [] {
    } else {
      var n := |parts| - 1;
      var front, last := parts[..n], parts[n];
      assert parts == front + [last];
      DroppedInk(p, front);
      KeepAppend(p, front, last);
      ConcatAppend(front, last);
      InkConcat(Concat(front), last);
      if p(last) {
        ConcatAppend(Keep(p, front), last);
        InkConcat(Concat(Keep(p, front)), last);
      } else {
        assert Keep(p, front) + [] == Keep(p, front);
      }
    }
  }

  /** A section loses text exactly when it is oversized and not blank. */
  lemma KeptInkExactly(s: Section, max: nat)
    ensures |Ink(KeptText(max)(s))| <= |Ink(s.text)|
    ensures Ink(KeptText(max)(s)) == Ink(s.text) <==> (Oversized(s, max) ==> Ink(s.text) == "")
    ensures !(Oversized(s, max) ==> Ink(s.text) == "") ==> |Ink(KeptText(max)(s))| < |Ink(s.text)|
  {
    hide Ink, Paragraphs;
    if |s.text| > max {
      var paras := Paragraphs(s.text);
      ParagraphsInk(s.text);
      DroppedInk(FitsIn(max), paras);
      if !Oversized(s, max) {
        KeepAll(FitsIn(max), paras);
      } else if Ink(s.text) != "" {
        var para :| para in paras && |para| > max;
        ParagraphHasInk(s.text, para);
      }
    }
  }

  lemma {:induction false} SectionsKeptExactly(sections: seq<Section>, max: nat)
    ensures var kept, all := Ink(Concat(Image(KeptText(max), sections))), Ink(Concat(Image(SectionText, sections)));
      && |kept| <= |all|
      && (kept == all <==> forall s :: s in sections ==> (Oversized(s, max) ==> Ink(s.text) == ""))
      && (kept != all ==> |kept| < |all|)
  {
    hide Ink, Oversized, KeptText, Concat;
    if sections == [] {
      assert Image(KeptText(max), sections) == Image(SectionText, sections) == [];
    } else {
      var n := |sections| - 1;
      var front, last := sections[..n], sections[n];
      assert sections == front + [last];
      SectionsKeptExactly(front, max);
      SectionTextGrows(sections);
      KeptInkExactly(last, max);
      var kept := Image(KeptText(max), front);
      assert Image(KeptText(max), sections) == kept + [KeptText(max)(last)];
      ConcatAppend(kept, KeptText(max)(last));
      InkConcat(Concat(kept), KeptText(max)(last));
    }
  }

  /** For every input: the new parts of the chunks spell the sections, whitespace aside, exactly when the overlap
      is smaller than max or no section that is not blank has a paragraph longer than max. */
  lemma NothingIsLostExactly(sections: seq<Section>, max: nat, overlap: nat)
    ensures Ink(NewText(Packed(sections, max, overlap), overlap)) == Ink(Concat(Image(SectionText, sections)))
       <==> overlap < max || forall s :: s in sections ==> (Oversized(s, max) ==> Ink(s.text) == "")
  {
    assert NewText(Packed(sections, max, overlap), overlap) == StateText(AddSections(sections, max, overlap), overlap);
    hide NewText, StateText, Ink, Oversized, Concat, AddSections;
    if overlap < max {
      NothingIsLost(sections, max, overlap);
    } else {
      PackedKeeps(sections, max, overlap);
      SectionsKeptExactly(sections, max);
    }
  }
}
