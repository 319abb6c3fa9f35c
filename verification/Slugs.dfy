/** Page slugs: the normalized name and a short identifier suffix. Case
    folding is the library's; names arrive here in lower case. */
module Slugs {
  import opened Texts

  predicate IsSlugChar(c: char) { 'a' <= c <= 'z' || '0' <= c <= '9' }

  function SkipRun(s: string): (r: string)
    ensures |r| <= |s|
    ensures r != "" ==> IsSlugChar(r[0])
  {
    if s == "" || IsSlugChar(s[0]) then s else SkipRun(s[1..])
  }

  /** Every maximal run of other characters becomes one hyphen. */
  function Hyphenated(s: string): string
    decreases |s|
  {
    if s == "" then ""
    else if IsSlugChar(s[0]) then [s[0]] + Hyphenated(s[1..])
    else ['-'] + Hyphenated(SkipRun(s[1..]))
  }

  function StripHyphens(s: string): string
    decreases |s|
  {
    if s != "" && s[0] == '-' then StripHyphens(s[1..])
    else if s != "" && s[|s| - 1] == '-' then StripHyphens(s[..|s| - 1])
    else s
  }

  function Slugify(name: string): string { StripHyphens(Hyphenated(Strip(name))) }

  /** generate_slug, for a lower-cased name and the text of a UUID. */
  function GenerateSlug(name: string, id: string): string
    requires |id| >= 8
  {
    Slugify(name) + "-" + id[..8]
  }

  // ---- Normal form ----

  /** Slug characters and single hyphens. */
  predicate Hyphenation(s: string) {
    && (forall i :: 0 <= i < |s| ==> IsSlugChar(s[i]) || s[i] == '-')
    && (forall i :: 0 <= i < |s| - 1 ==> s[i] != '-' || s[i + 1] != '-')
  }

  predicate NormalForm(s: string) {
    Hyphenation(s) && (s != "" ==> s[0] != '-' && s[|s| - 1] != '-')
  }

  lemma {:induction false} HyphenatedIsHyphenation(s: string)
    ensures Hyphenation(Hyphenated(s))
    ensures s != "" && IsSlugChar(s[0]) ==> Hyphenated(s) != "" && Hyphenated(s)[0] == s[0]
    ensures s == "" ==> Hyphenated(s) == ""
    decreases |s|
  {
    if s == "" {
    } else {
      if IsSlugChar(s[0]) {
        HyphenatedIsHyphenation(s[1..]);
      } else {
        HyphenatedIsHyphenation(SkipRun(s[1..]));
      }
    }
  }

  lemma {:induction false} StripHyphensNormalizes(s: string)
    requires Hyphenation(s)
    ensures NormalForm(StripHyphens(s))
    decreases |s|
  {
    if s != "" && s[0] == '-' {
      StripHyphensNormalizes(s[1..]);
    } else if s != "" && s[|s| - 1] == '-' {
      StripHyphensNormalizes(s[..|s| - 1]);
    }
  }

  lemma SlugifyIsNormal(name: string)
    ensures NormalForm(Slugify(name))
  {
    HyphenatedIsHyphenation(Strip(name));
    StripHyphensNormalizes(Hyphenated(Strip(name)));
  }

  lemma {:induction false} HyphenatedOfNormal(s: string)
    requires Hyphenation(s)
    requires s != "" ==> s[|s| - 1] != '-'
    ensures Hyphenated(s) == s
    decreases |s|
  {
    if s == "" {
    } else {
      HyphenatedOfNormal(s[1..]);
      if s[0] == '-' {
        assert s[1] != '-' && SkipRun(s[1..]) == s[1..];
      }
      assert s == [s[0]] + s[1..];
    }
  }

  /** Slugifying a slug changes nothing. */
  lemma SlugifyIsIdempotent(name: string)
    ensures Slugify(Slugify(name)) == Slugify(name)
  {
    var s := Slugify(name);
    SlugifyIsNormal(name);
    assert Strip(s) == s;
    HyphenatedOfNormal(s);
  }

  /** Two entities share a slug exactly when their normalized names and the first eight
      characters of their identifiers agree. */
  lemma SlugsCollideExactly(name: string, id: string, name': string, id': string)
    requires |id| >= 8 && |id'| >= 8
    ensures GenerateSlug(name, id) == GenerateSlug(name', id')
       <==> Slugify(name) == Slugify(name') && id[..8] == id'[..8]
  {
    var a, b := GenerateSlug(name, id), GenerateSlug(name', id');
    assert a[..|a| - 9] == Slugify(name) && a[|a| - 8..] == id[..8];
    assert b[..|b| - 9] == Slugify(name') && b[|b| - 8..] == id'[..8];
  }

  const FIRST_ID := "12345678-0000-4000-8000-000000000001"
  const SECOND_ID := "12345678-0000-4000-8000-000000000002"

  /** Two entities of different names and identifiers with one slug. */
  lemma DifferentEntitiesOneSlug()
    ensures "a b" != "a-b" && FIRST_ID != SECOND_ID && |FIRST_ID| >= 8 && |SECOND_ID| >= 8
    ensures GenerateSlug("a b", FIRST_ID) == GenerateSlug("a-b", SECOND_ID)
  {
    assert FIRST_ID[35] != SECOND_ID[35];
    assert FIRST_ID[..8] == "12345678" == SECOND_ID[..8];
    var spaced, hyphened := "a b", "a-b";
    assert Strip(spaced) == spaced && Strip(hyphened) == hyphened;
    assert spaced[1..] == " b" && spaced[1..][1..] == "b" && "b"[1..] == "";
    assert SkipRun("b") == "b" && Hyphenated("") == "" && Hyphenated("b") == "b";
    assert Hyphenated(" b") == "-b" by { assert " b"[1..] == "b"; }
    assert Hyphenated(spaced) == hyphened;
    HyphenatedOfNormal(hyphened);
  }

  /** A slug is longer than any reserved page name. */
  lemma SlugIsNotIndex(name: string, id: string)
    requires |id| >= 8
    ensures GenerateSlug(name, id) != "index"
    ensures (forall i :: 0 <= i < 8 ==> IsSlugChar(id[i])) ==> Hyphenation(GenerateSlug(name, id))
  {
    SlugifyIsNormal(name);
    assert |GenerateSlug(name, id)| >= 9;
  }
}
