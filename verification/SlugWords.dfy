/** What a slug is made of: the words of the name, joined by hyphens. */
module SlugWords {
  import opened Texts
  import opened Slugs

  predicate IsWord(s: string) { s != "" && forall i :: 0 <= i < |s| ==> 'a' <= s[i] <= 'z' || '0' <= s[i] <= '9' }

  predicate IsGap(s: string) { forall i :: 0 <= i < |s| ==> !('a' <= s[i] <= 'z' || '0' <= s[i] <= '9') }

  /** gap, word, gap, word, ..., gap */
  function Woven(gaps: seq<string>, words: seq<string>): string
    requires |gaps| == |words| + 1
  {
    if words == [] then gaps[0] else gaps[0] + (words[0] + Woven(gaps[1..], words[1..]))
  }

  /** The name's words are its longest runs of letters a to z and digits. */
  ghost predicate WordsOf(name: string, gaps: seq<string>, words: seq<string>) {
    && |gaps| == |words| + 1 && Woven(gaps, words) == name
    && (forall i :: 0 <= i < |words| ==> IsWord(words[i]))
    && (forall i :: 0 <= i < |gaps| ==> IsGap(gaps[i]))
    && (forall i :: 0 < i < |words| ==> gaps[i] != "")
  }

  lemma WordsBehind(name: string, gaps: seq<string>, words: seq<string>)
    requires WordsOf(name, gaps, words) && words != []
    ensures WordsOf(Woven(gaps[1..], words[1..]), gaps[1..], words[1..])
    ensures name == gaps[0] + (words[0] + Woven(gaps[1..], words[1..])) && IsGap(gaps[0]) && IsWord(words[0])
  {
    hide IsGap, IsWord;
    forall i | 0 < i < |words[1..]| ensures gaps[1..][i] != "" {
      assert gaps[1..][i] == gaps[i + 1];
    }
  }

  /** Every name has words. */
  lemma {:induction false} EveryNameHasWords(name: string) returns (gaps: seq<string>, words: seq<string>)
    ensures WordsOf(name, gaps, words)
  {
    if name == "" {
      gaps, words := [""], [];
    } else {
      var c := name[0];
      assert name == [c] + name[1..];
      gaps, words := EveryNameHasWords(name[1..]);
      if !IsSlugChar(c) {
        GapGrows(c, name[1..], gaps, words);
        gaps := gaps[0 := [c] + gaps[0]];
      } else if gaps[0] == "" && words != [] {
        WordGrows(c, name[1..], gaps, words);
        words := words[0 := [c] + words[0]];
      } else {
        WordStarts(c, name[1..], gaps, words);
        gaps, words := [""] + gaps, [[c]] + words;
      }
    }
  }

  lemma GapGrows(c: char, rest: string, gaps: seq<string>, words: seq<string>)
    requires WordsOf(rest, gaps, words) && !IsSlugChar(c)
    ensures WordsOf([c] + rest, gaps[0 := [c] + gaps[0]], words)
  {
    hide IsWord;
    var grown := gaps[0 := [c] + gaps[0]];
    assert grown[1..] == gaps[1..];
    if words != [] {
      Associates([c], gaps[0], words[0] + Woven(gaps[1..], words[1..]));
    }
  }

  lemma WordGrows(c: char, rest: string, gaps: seq<string>, words: seq<string>)
    requires WordsOf(rest, gaps, words) && IsSlugChar(c) && gaps[0] == "" && words != []
    ensures WordsOf([c] + rest, gaps, words[0 := [c] + words[0]])
  {
    hide IsGap;
    var grown := words[0 := [c] + words[0]];
    assert grown[1..] == words[1..];
    Associates([c], words[0], Woven(gaps[1..], words[1..]));
    assert IsWord([c] + words[0]);
    NothingBefore(words[0] + Woven(gaps[1..], words[1..]));
    NothingBefore(grown[0] + Woven(gaps[1..], words[1..]));
  }

  lemma WordStarts(c: char, rest: string, gaps: seq<string>, words: seq<string>)
    requires WordsOf(rest, gaps, words) && IsSlugChar(c) && (words != [] ==> gaps[0] != "")
    ensures WordsOf([c] + rest, [""] + gaps, [[c]] + words)
  {
    assert ([""] + gaps)[1..] == gaps && ([[c]] + words)[1..] == words;
    NothingBefore([c] + rest);
    assert IsWord([c]) && IsGap("");
    hide IsWord, IsGap;
  }

  lemma Associates(a: string, b: string, c: string)
    ensures a + (b + c) == (a + b) + c
  {
  }

  lemma NothingBefore(s: string)
    ensures "" + s == s
  {
  }

  // ---- Hyphens ----

  function Mark(gap: string): string { if gap == "" then "" else "-" }

  lemma {:induction false} SkipGap(gap: string, rest: string)
    requires IsGap(gap) && (rest != "" ==> IsSlugChar(rest[0]))
    ensures SkipRun(gap + rest) == rest
  {
    if gap == "" {
      NothingBefore(rest);
    } else {
      assert (gap + rest)[1..] == gap[1..] + rest;
      SkipGap(gap[1..], rest);
    }
  }

  lemma HyphenForGap(gap: string, rest: string)
    requires IsGap(gap) && (rest != "" ==> IsSlugChar(rest[0]))
    ensures Hyphenated(gap + rest) == Mark(gap) + Hyphenated(rest)
  {
    if gap == "" {
      NothingBefore(rest);
      NothingBefore(Hyphenated(rest));
    } else {
      assert (gap + rest)[1..] == gap[1..] + rest;
      SkipGap(gap[1..], rest);
    }
  }

  lemma {:induction false} WordStays(word: string, rest: string)
    requires forall i :: 0 <= i < |word| ==> IsSlugChar(word[i])
    ensures Hyphenated(word + rest) == word + Hyphenated(rest)
  {
    if word == "" {
      NothingBefore(rest);
      NothingBefore(Hyphenated(rest));
    } else {
      assert (word + rest)[1..] == word[1..] + rest;
      WordStays(word[1..], rest);
      assert word == [word[0]] + word[1..];
      Associates([word[0]], word[1..], Hyphenated(rest));
    }
  }

  /** Hyphenating keeps the words and puts one hyphen for each gap that is not empty. */
  lemma {:induction false} HyphenatedWords(name: string, gaps: seq<string>, words: seq<string>)
    requires WordsOf(name, gaps, words)
    ensures Hyphenated(name)
      == Mark(gaps[0]) + if words == [] then "" else Join("-", words) + Mark(gaps[|gaps| - 1])
    decreases |words|
  {
    if words == [] {
      HyphenForGap(gaps[0], "");
      assert gaps[0] + "" == gaps[0];
      assert Hyphenated("") == "";
    } else {
      WordsBehind(name, gaps, words);
      var word, rest := words[0], Woven(gaps[1..], words[1..]);
      HyphenatedWords(rest, gaps[1..], words[1..]);
      assert IsSlugChar((word + rest)[0]);
      HyphenForGap(gaps[0], word + rest);
      WordStays(word, rest);
      assert words == [word] + words[1..];
      assert gaps[1..][|gaps| - 2] == gaps[|gaps| - 1];
      hide *;
      OneMoreWord(word, words[1..], gaps[1], gaps[|gaps| - 1]);
      if |words| > 1 {
        assert gaps[1] != "" by { InnerGap(name, gaps, words); }
      } else {
        assert gaps[|gaps| - 1] == gaps[1];
      }
    }
  }

  lemma InnerGap(name: string, gaps: seq<string>, words: seq<string>)
    requires WordsOf(name, gaps, words) && |words| > 1
    ensures gaps[1] != ""
  {
  }

  lemma OneMoreWord(word: string, words: seq<string>, gap: string, last: string)
    ensures words == [] && gap == last ==>
      word + (Mark(gap) + "") == Join("-", [word] + words) + Mark(last)
    ensures words != [] && gap != "" ==>
      word + (Mark(gap) + (Join("-", words) + Mark(last))) == Join("-", [word] + words) + Mark(last)
  {
    if words == [] {
      assert [word] + words == [word];
      assert Mark(gap) + "" == Mark(gap);
    } else if gap != "" {
      JoinCons("-", word, words);
      FourAssociate(word, "-", Join("-", words), Mark(last));
    }
  }

  lemma FourAssociate(a: string, b: string, c: string, d: string)
    ensures a + (b + (c + d)) == (a + b + c) + d
  {
  }

  lemma {:induction false} JoinedEnds(words: seq<string>)
    requires words != [] && forall i :: 0 <= i < |words| ==> IsWord(words[i])
    ensures var joined := Join("-", words);
      joined != "" && IsSlugChar(joined[0]) && IsSlugChar(joined[|joined| - 1])
  {
    var n := |words| - 1;
    assert IsWord(words[n]);
    if n > 0 {
      JoinedEnds(words[..n]);
    }
  }

  lemma StripsMarks(gap: string, slug: string, last: string)
    requires slug != "" && slug[0] != '-' && slug[|slug| - 1] != '-'
    ensures StripHyphens(Mark(gap) + (slug + Mark(last))) == slug
  {
    assert StripHyphens(slug) == slug;
    assert StripHyphens(slug + Mark(last)) == slug by {
      if last == "" {
        assert slug + "" == slug;
      } else {
        assert (slug + "-")[..|slug|] == slug && (slug + "-")[0] == slug[0];
      }
    }
    if gap == "" {
      NothingBefore(slug + Mark(last));
    } else {
      assert ("-" + (slug + Mark(last)))[1..] == slug + Mark(last);
    }
  }

  // ---- Trimming first changes no word ----

  lemma {:induction false} StripLeftOfGap(gap: string, rest: string) returns (left: string)
    requires IsGap(gap) && (rest != "" ==> IsSlugChar(rest[0]))
    ensures StripLeft(gap + rest) == left + rest && IsGap(left)
  {
    if gap == "" {
      left := "";
      NothingBefore(rest);
    } else if IsSpace(gap[0]) {
      assert (gap + rest)[1..] == gap[1..] + rest;
      left := StripLeftOfGap(gap[1..], rest);
    } else {
      left := gap;
    }
  }

  lemma {:induction false} StripRightOfGap(front: string, gap: string) returns (right: string)
    requires IsGap(gap) && (front != "" ==> IsSlugChar(front[|front| - 1]))
    ensures StripRight(front + gap) == front + right && IsGap(right)
  {
    if gap == "" {
      right := "";
      assert front + "" == front;
    } else if IsSpace(gap[|gap| - 1]) {
      assert (front + gap)[..|front + gap| - 1] == front + gap[..|gap| - 1];
      right := StripRightOfGap(front, gap[..|gap| - 1]);
    } else {
      right := gap;
    }
  }

  lemma {:induction false} WovenEnds(gaps: seq<string>, words: seq<string>, last: string)
    requires |gaps| == |words| + 1 && forall i :: 0 <= i < |words| ==> IsWord(words[i])
    ensures var front := Woven(gaps[|words| := ""], words);
      && Woven(gaps[|words| := last], words) == front + last
      && (front != "" && words != [] ==> IsSlugChar(front[|front| - 1])) && (words == [] ==> front == "")
      && (words != [] ==> front != "")
    decreases |words|
  {
    var n := |words|;
    if n == 0 {
      NothingBefore(last);
    } else {
      var empty, full := gaps[n := ""], gaps[n := last];
      assert empty[1..] == gaps[1..][n - 1 := ""] && full[1..] == gaps[1..][n - 1 := last];
      assert IsWord(words[0]) && forall i :: 0 <= i < n - 1 ==> words[1..][i] == words[i + 1];
      WovenEnds(gaps[1..], words[1..], last);
      hide IsWord, Woven;
      FourAssociate(gaps[0], words[0], Woven(empty[1..], words[1..]), last);
      WovenIs(empty, words);
      WovenIs(full, words);
      if n == 1 {
        WordEnds(words[0]);
      }
    }
  }

  lemma WovenIs(gaps: seq<string>, words: seq<string>)
    requires |gaps| == |words| + 1 && words != []
    ensures Woven(gaps, words) == gaps[0] + words[0] + Woven(gaps[1..], words[1..])
  {
    Associates(gaps[0], words[0], Woven(gaps[1..], words[1..]));
  }

  lemma WordEnds(word: string)
    requires IsWord(word)
    ensures word != "" && IsSlugChar(word[|word| - 1])
  {
  }

  lemma LeftTrimmed(name: string, gaps: seq<string>, words: seq<string>) returns (left: string)
    requires WordsOf(name, gaps, words)
    ensures WordsOf(StripLeft(name), gaps[0 := left], words)
  {
    if words == [] {
      left := StripLeftOfGap(gaps[0], "");
      assert gaps[0] + "" == gaps[0] && left + "" == left;
    } else {
      WordsBehind(name, gaps, words);
      var rest := words[0] + Woven(gaps[1..], words[1..]);
      assert IsSlugChar(rest[0]);
      left := StripLeftOfGap(gaps[0], rest);
      assert gaps[0 := left][1..] == gaps[1..];
      hide IsGap, IsWord, StripLeft;
    }
  }

  lemma RightTrimmed(name: string, gaps: seq<string>, words: seq<string>) returns (right: string)
    requires WordsOf(name, gaps, words)
    ensures WordsOf(StripRight(name), gaps[|words| := right], words)
  {
    var n := |words|;
    var front := Woven(gaps[n := ""], words);
    WovenEnds(gaps, words, gaps[n]);
    assert gaps[n := gaps[n]] == gaps;
    hide Woven, IsGap, IsWord, StripRight;
    right := StripRightOfGap(front, gaps[n]);
    WovenEnds(gaps, words, right);
  }

  // ---- The slug ----

  /** A slug is the name's words joined by single hyphens, then a hyphen and the identifier's first eight
      characters. */
  lemma SlugIsWords(name: string, gaps: seq<string>, words: seq<string>, id: string)
    requires WordsOf(name, gaps, words) && |id| >= 8
    ensures Slugify(name) == Join("-", words)
    ensures GenerateSlug(name, id) == Join("-", words) + "-" + id[..8]
  {
    hide *;
    WordsAreWords(name, gaps, words);
    var left := LeftTrimmed(name, gaps, words);
    var right := RightTrimmed(StripLeft(name), gaps[0 := left], words);
    var trimmed := gaps[0 := left][|words| := right];
    var s := StripRight(StripLeft(name));
    HyphenatedWords(s, trimmed, words);
    SlugOfHyphenated(name, id);
    if words == [] {
      NoWords(trimmed[0]);
      assert Mark(trimmed[0]) + "" == Mark(trimmed[0]);
    } else {
      JoinedEnds(words);
      SlugCharsAreNoHyphens(Join("-", words));
      StripsMarks(trimmed[0], Join("-", words), trimmed[|trimmed| - 1]);
    }
  }

  lemma SlugOfHyphenated(name: string, id: string)
    requires |id| >= 8
    ensures Slugify(name) == StripHyphens(Hyphenated(StripRight(StripLeft(name))))
    ensures GenerateSlug(name, id) == Slugify(name) + "-" + id[..8]
  {
  }

  lemma WordsAreWords(name: string, gaps: seq<string>, words: seq<string>)
    requires WordsOf(name, gaps, words)
    ensures |gaps| == |words| + 1 && forall i :: 0 <= i < |words| ==> IsWord(words[i])
  {
  }

  lemma SlugCharsAreNoHyphens(s: string)
    ensures s != "" && IsSlugChar(s[0]) ==> s[0] != '-'
    ensures s != "" && IsSlugChar(s[|s| - 1]) ==> s[|s| - 1] != '-'
  {
  }

  lemma NoWords(gap: string)
    ensures StripHyphens(Mark(gap)) == Join("-", [])
  {
    assert "-"[1..] == "";
    assert StripHyphens("") == "";
  }
}
