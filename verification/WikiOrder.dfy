/** The order in which a page's sections are kept and the tags they carry, told
    from the headings alone. */
module WikiOrder {
  import opened Sequences
  import opened StableSorting
  import opened Texts
  import opened Budgets
  import opened WikiSections

  /** What a heading's title, trimmed and in lower case, makes of its section. */
  function TagOfTitle(title: string): string {
    match title
    case "relations" => "relationships"
    case "relationships" => "relationships"
    case "contradictions" => "contradictions"
    case "sources" => "sources"
    case "chunks" => "sources"
    case "pages created or updated" => "pages_created"
    case "key relations introduced" => "key_relations"
    case "ingest history" => "ingest_history"
    case _ => "other"
  }

  /** A section is tagged by its first line: by its title when that starts a heading of level two, and as prose
      otherwise. */
  lemma SectionTags(lower: string -> string, block: seq<string>)
    requires block != []
    ensures SectionOf(lower)(block).text == Join("\n", block)
    ensures var line := block[0];
      SectionOf(lower)(block).tag == if |line| >= 3 && line[0] == '#' && line[1] == '#' && line[2] == ' '
                                     then TagOfTitle(lower(Strip(line[3..]))) else "entity_prose"
  {
    var line := block[0];
    assert |line| >= 3 ==> (line[..3] == "## " <==> line[0] == '#' && line[1] == '#' && line[2] == ' ');
  }

  /** Prose first, and with it every tag without a place of its own; then relationships, contradictions, sources
      and the rest. */
  function Place(tag: string): nat {
    match tag
    case "relationships" => 1
    case "contradictions" => 2
    case "sources" => 3
    case "other" => 4
    case _ => 0
  }

  function HasPlace(place: nat): Section -> bool { (s: Section) => Place(s.tag) == place }

  lemma PriorityIsPlace(s: Section)
    ensures Priority(s) == (Place(s.tag), 0)
  {
    var names := ["entity_prose", "relationships", "contradictions", "sources", "other"];
    assert names[1..] == ["relationships", "contradictions", "sources", "other"];
    assert names[1..][1..] == ["contradictions", "sources", "other"];
    assert names[1..][1..][1..] == ["sources", "other"];
    assert names[1..][1..][1..][1..] == ["other"];
    assert names == ENTITY_PAGE_SECTION_PRIORITY;
  }

  /** The kept text starts from the sections in that order; sections of one place keep the page's order, and no
      section is lost or repeated. */
  lemma SectionsInOrder(lower: string -> string, page: WikiPage)
    ensures forall i, j :: 0 <= i < j < |Ordered(lower, page)| ==>
      Place(Ordered(lower, page)[i].tag) <= Place(Ordered(lower, page)[j].tag)
    ensures Permutation(Sections(lower, page.lines), Ordered(lower, page))
    ensures forall place: nat :: Keep(HasPlace(place), Ordered(lower, page))
                              == Keep(HasPlace(place), Sections(lower, page.lines))
  {
    hide *;
    var sections, ordered := Sections(lower, page.lines), Ordered(lower, page);
    OrderedIsSorted(lower, page);
    forall i, j | 0 <= i < j < |ordered| ensures Place(ordered[i].tag) <= Place(ordered[j].tag) {
      SortedByPlace(ordered, i, j);
    }
    forall place: nat ensures Keep(HasPlace(place), ordered) == Keep(HasPlace(place), sections) {
      SameRankKeepsPageOrder(lower, page, (place, 0));
      PlacesAlike(place, ordered);
      PlacesAlike(place, sections);
    }
  }

  lemma OrderedIsSorted(lower: string -> string, page: WikiPage)
    ensures Sorted(Priority, Ordered(lower, page))
    ensures Permutation(Sections(lower, page.lines), Ordered(lower, page))
  {
    StableSortSorts(Priority, Sections(lower, page.lines));
  }

  lemma SortedByPlace(s: seq<Section>, i: nat, j: nat)
    requires Sorted(Priority, s) && i < j < |s|
    ensures Place(s[i].tag) <= Place(s[j].tag)
  {
    hide Priority, Place;
    PriorityIsPlace(s[i]);
    PriorityIsPlace(s[j]);
    assert !Less(Priority(s[j]), Priority(s[i]));
  }

  lemma {:induction false} PlacesAlike(place: nat, s: seq<Section>)
    ensures Keep(HasRank(Priority, (place, 0)), s) == Keep(HasPlace(place), s)
  {
    hide Priority, Place;
    if s == [] {
    } else {
      var n := |s| - 1;
      PlacesAlike(place, s[..n]);
      PriorityIsPlace(s[n]);
    }
  }

  /** The snapshot shows the longest run of sections from the start of that order that fits the slot, a blank line
      between them, with the page's own sources and size. */
  lemma SnapshotShows(lower: string -> string, page: WikiPage, budget: int) returns (k: nat)
    ensures var ordered, snapshot := Ordered(lower, page), SnapshotOf(lower, page, budget);
      && k <= |ordered| && snapshot.content == Join("\n\n", Image(Text, ordered[..k]))
      && LongestFit(Same, Image(Text, ordered), budget, k)
      && (snapshot.wasTruncated <==> k < |ordered|)
      && snapshot.sources == page.sources && snapshot.originalTokens == EstimateTokens(page.content)
  {
    k := |Selected(lower, page, budget)|;
    SelectedIsPrefix(lower, page, budget);
    FittingIsLongest(Same, Image(Text, Ordered(lower, page)), budget);
    hide Ordered, LongestFit, Fitting, Keep;
  }
}
