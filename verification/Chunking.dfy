/** Packing text sections into chunks of bounded size, and the overlap pass. */
module Chunking {
  import opened Sequences
  import opened Texts

  datatype Section = Section(text: string, page: Option<int>)
  datatype Chunk = Chunk(text: string, heading: Option<string>, page: Option<int>)

  /** range() refuses a zero step: the only error the packer can raise. */
  datatype Split = Chunks(chunks: seq<Chunk>) | StepIsZero

  const BLANK := "\n\n"
  const NO_BUFFER := Chunk("", None, None)

  function ChunkText(c: Chunk): string { c.text }
  function SectionText(s: Section): string { s.text }
  function NonEmpty(s: string): bool { s != "" }
  function Stripped(s: string): string { Strip(s) }

  /** _split_paragraph */
  function Paragraphs(text: string): seq<string> {
    var paragraphs := Keep(NonEmpty, Image(Stripped, SplitBlank(text)));
    if paragraphs == [] then [text] else paragraphs
  }

  function Least(a: int, b: int): int { if a < b then a else b }

  /** The slices of an oversized paragraph from position i on. */
  function Slices(para: string, page: Option<int>, max: nat, overlap: nat, i: nat): seq<Chunk>
    requires overlap < max
    decreases |para| - i
  {
    if i >= |para| then []
    else [Slice(para, page, max, i)] + Slices(para, page, max, overlap, i + (max - overlap))
  }

  function Slice(para: string, page: Option<int>, max: nat, i: nat): Chunk
    requires i < |para|
  {
    Chunk(para[i..Least(i + max, |para|)], if i == 0 then Some(para[..Least(80, |para| / 4)]) else None, page)
  }

  // ---- The packer as a fold over sections ----

  /** The emitted chunks and the open buffer. */
  datatype State = State(out: seq<Chunk>, buffer: Chunk)

  function Flush(buffer: Chunk): seq<Chunk> { if buffer.text == "" then [] else [buffer] }

  function Opened(text: string, page: Option<int>): Chunk { Chunk(text, Some(FirstLine(text)), page) }

  function AddParagraph(st: State, para: string, page: Option<int>, max: nat, overlap: nat): State {
    if |para| <= max then State(st.out + Flush(st.buffer), Opened(para, page))
    else
      State(st.out + Flush(st.buffer) + (if overlap < max then Slices(para, page, max, overlap, 0) else []), NO_BUFFER)
  }

  function AddParagraphs(st: State, paras: seq<string>, page: Option<int>, max: nat, overlap: nat): State {
    if paras == [] then st
    else
      var n := |paras| - 1;
      AddParagraph(AddParagraphs(st, paras[..n], page, max, overlap), paras[n], page, max, overlap)
  }

  lemma AddParagraphsNext(st: State, paras: seq<string>, i: nat, page: Option<int>, max: nat, overlap: nat)
    requires i < |paras|
    ensures AddParagraphs(st, paras[..i + 1], page, max, overlap)
         == AddParagraph(AddParagraphs(st, paras[..i], page, max, overlap), paras[i], page, max, overlap)
  {
    assert paras[..i + 1][..i] == paras[..i];
  }

  function Extended(buffer: Chunk, s: Section): Chunk {
    if buffer.text != ""
    then buffer.(text := buffer.text + BLANK + s.text, page := if buffer.page != s.page then None else buffer.page)
    else Opened(s.text, s.page)
  }

  function AddSection(st: State, s: Section, max: nat, overlap: nat): State {
    if |s.text| > max then
      AddParagraphs(State(st.out + Flush(st.buffer), NO_BUFFER), Paragraphs(s.text), s.page, max, overlap)
    else if |st.buffer.text| + |s.text| + 2 <= max then State(st.out, Extended(st.buffer, s))
    else State(st.out + Flush(st.buffer), Opened(s.text, s.page))
  }

  function AddSections(sections: seq<Section>, max: nat, overlap: nat): State {
    if sections == [] then State([], NO_BUFFER)
    else
      var n := |sections| - 1;
      AddSection(AddSections(sections[..n], max, overlap), sections[n], max, overlap)
  }

  lemma AddSectionsNext(sections: seq<Section>, i: nat, max: nat, overlap: nat)
    requires i < |sections|
    ensures AddSections(sections[..i + 1], max, overlap)
         == AddSection(AddSections(sections[..i], max, overlap), sections[i], max, overlap)
  {
    assert sections[..i + 1][..i] == sections[..i];
  }

  /** The chunks before the overlap pass. */
  function Packed(sections: seq<Section>, max: nat, overlap: nat): seq<Chunk> {
    var st := AddSections(sections, max, overlap);
    st.out + Flush(st.buffer)
  }

  predicate Oversized(s: Section, max: nat) {
    |s.text| > max && exists para | para in Paragraphs(s.text) :: |para| > max
  }

  /** range(0, len, 0) is reached: some paragraph needs slicing and the step is zero. */
  predicate NeedsZeroStep(sections: seq<Section>, max: nat, overlap: nat) {
    max == overlap && exists s | s in sections :: Oversized(s, max)
  }

  // ---- The overlap pass ----

  /** text[-overlap:] if len(text) > overlap else text; text[-0:] is all of text. */
  function Tail(text: string, overlap: nat): string {
    if |text| > overlap && overlap > 0 then text[|text| - overlap..] else text
  }

  function Overlapped(chunks: seq<Chunk>, overlap: nat, i: nat): Chunk
    requires i < |chunks|
  {
    if i == 0 then chunks[0]
    else
      var text := Tail(chunks[i - 1].text, overlap) + chunks[i].text;
      Chunk(text,
            Some(if chunks[i].heading.Some? && chunks[i].heading.value != "" then chunks[i].heading.value else text),
            chunks[i].page)
  }

  function WithOverlap(chunks: seq<Chunk>, overlap: nat): (r: seq<Chunk>)
    ensures |r| == |chunks|
  {
    seq(|chunks|, i requires 0 <= i < |chunks| => Overlapped(chunks, overlap, i))
  }

  // ---- The imperative passes ----

  /** The slicing loop: for i in range(0, len(para), max - overlap). */
  method SliceParagraph(para: string, page: Option<int>, max: nat, overlap: nat) returns (slices: seq<Chunk>)
    requires max != overlap
    ensures slices == if overlap < max then Slices(para, page, max, overlap, 0) else []
  {
    slices := [];
    if overlap > max {
      return;
    }
    var i := 0;
    while i < |para|
      invariant slices + Slices(para, page, max, overlap, i) == Slices(para, page, max, overlap, 0)
      decreases |para| - i
    {
      slices := slices + [Slice(para, page, max, i)];
      i := i + (max - overlap);
    }
  }

  method SplitSection(out: seq<Chunk>, section: Section, max: nat, overlap: nat) returns (r: Option<State>)
    requires |section.text| > max
    ensures r == if max == overlap && Oversized(section, max) then None
                 else Some(AddParagraphs(State(out, NO_BUFFER), Paragraphs(section.text), section.page, max, overlap))
  {
    var result, buffer := out, NO_BUFFER;
    var paras := Paragraphs(section.text);
    hide Paragraphs;
    hide Slices;
    hide FirstLine;
    var i := 0;
    while i < |paras|
      invariant 0 <= i <= |paras|
      invariant State(result, buffer) == AddParagraphs(State(out, NO_BUFFER), paras[..i], section.page, max, overlap)
      invariant max == overlap ==> forall para :: para in paras[..i] ==> |para| <= max
    {
      var para := paras[i];
      assert paras[..i + 1] == paras[..i] + [para];
      AddParagraphsNext(State(out, NO_BUFFER), paras, i, section.page, max, overlap);
      if buffer.text != "" {
        result := result + [buffer];
      }
      if |para| <= max {
        buffer := Opened(para, section.page);
      } else if max == overlap {
        return None;
      } else {
        var slices := SliceParagraph(para, section.page, max, overlap);
        result := result + slices;
        buffer := NO_BUFFER;
      }
      i := i + 1;
    }
    assert paras[..i] == paras;
    r := Some(State(result, buffer));
  }

  /** split_by_sections */
  method SplitBySections(sections: seq<Section>, max: nat, overlap: nat) returns (r: Split)
    ensures r == if NeedsZeroStep(sections, max, overlap) then StepIsZero
                 else Chunks(WithOverlap(Packed(sections, max, overlap), overlap))
  {
    hide Paragraphs;
    hide AddParagraphs;
    hide FirstLine;
    hide WithOverlap;
    var result: seq<Chunk>, buffer := [], NO_BUFFER;
    var i := 0;
    while i < |sections|
      invariant 0 <= i <= |sections|
      invariant State(result, buffer) == AddSections(sections[..i], max, overlap)
      invariant max == overlap ==> forall s :: s in sections[..i] ==> !Oversized(s, max)
    {
      var section := sections[i];
      assert sections[..i + 1] == sections[..i] + [section];
      AddSectionsNext(sections, i, max, overlap);
      ghost var flushed := result + Flush(buffer);
      if |section.text| > max {
        if buffer.text != "" {
          result := result + [buffer];
        }
        assert result == flushed;
        var after := SplitSection(result, section, max, overlap);
        if after.None? {
          assert section in sections;
          return StepIsZero;
        }
        result, buffer := after.value.out, after.value.buffer;
      } else if |buffer.text| + |section.text| + 2 <= max {
        buffer := Extended(buffer, section);
      } else {
        if buffer.text != "" {
          result := result + [buffer];
        }
        assert result == flushed;
        buffer := Opened(section.text, section.page);
      }
      i := i + 1;
    }
    assert sections[..i] == sections;
    assert !NeedsZeroStep(sections, max, overlap);
    assert Packed(sections, max, overlap) == result + Flush(buffer);
    if buffer.text != "" {
      result := result + [buffer];
    }
    assert result == Packed(sections, max, overlap);
    var overlapped := ApplyOverlap(result, overlap);
    r := Chunks(overlapped);
  }

  /** _apply_overlap */
  method ApplyOverlap(chunks: seq<Chunk>, overlap: nat) returns (result: seq<Chunk>)
    ensures result == WithOverlap(chunks, overlap)
  {
    hide *;
    if |chunks| <= 1 {
      FirstStays(chunks, overlap);
      return chunks;
    }
    FirstStays(chunks, overlap);
    result := [chunks[0]];
    var i := 1;
    while i < |chunks|
      invariant 1 <= i <= |chunks|
      invariant |result| == i && forall j :: 0 <= j < i ==> result[j] == Overlapped(chunks, overlap, j)
    {
      NextOverlapped(chunks, overlap, i);
      var prev, chunk := chunks[i - 1].text, chunks[i];
      var overlapped := Tail(prev, overlap) + chunk.text;
      var heading := if chunk.heading.Some? && chunk.heading.value != "" then chunk.heading.value else overlapped;
      result := result + [Chunk(overlapped, Some(heading), chunk.page)];
      i := i + 1;
    }
    AllOverlapped(chunks, overlap, result);
  }

  lemma FirstStays(chunks: seq<Chunk>, overlap: nat)
    ensures chunks != [] ==> Overlapped(chunks, overlap, 0) == chunks[0]
    ensures |chunks| <= 1 ==> WithOverlap(chunks, overlap) == chunks
  {
  }

  lemma NextOverlapped(chunks: seq<Chunk>, overlap: nat, i: nat)
    requires 0 < i < |chunks|
    ensures var text := Tail(chunks[i - 1].text, overlap) + chunks[i].text;
      Overlapped(chunks, overlap, i)
        == Chunk(text, Some(if chunks[i].heading.Some? && chunks[i].heading.value != "" then chunks[i].heading.value
                            else text), chunks[i].page)
  {
  }

  lemma AllOverlapped(chunks: seq<Chunk>, overlap: nat, result: seq<Chunk>)
    requires |result| == |chunks| && forall j :: 0 <= j < |chunks| ==> result[j] == Overlapped(chunks, overlap, j)
    ensures result == WithOverlap(chunks, overlap)
  {
    hide Overlapped;
  }
}
