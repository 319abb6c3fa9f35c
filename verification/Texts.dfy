/** String operations the source takes from Python: join, split on a blank
    line, strip, and the whitespace they agree on. */
module Texts {
  import opened Sequences

  /** sep.join(parts) */
  function Join(sep: string, parts: seq<string>): string {
    if parts == [] then ""
    else
      var n := |parts| - 1;
      if n == 0 then parts[0] else Join(sep, parts[..n]) + sep + parts[n]
  }

  function Concat(parts: seq<string>): string {
    if parts == [] then "" else Concat(parts[..|parts| - 1]) + parts[|parts| - 1]
  }

  lemma JoinAppend(sep: string, parts: seq<string>, part: string)
    ensures Join(sep, parts + [part]) == if parts == [] then part else Join(sep, parts) + sep + part
  {
    assert (parts + [part])[..|parts|] == parts;
  }

  /** Join the texts of some items. */
  function JoinedBy<A>(sep: string, text: A -> string): seq<A> -> string {
    (items: seq<A>) => Join(sep, Image(text, items))
  }

  lemma JoinedByAppend<A>(sep: string, text: A -> string, items: seq<A>, item: A)
    ensures JoinedBy(sep, text)(items + [item])
      == if items == [] then text(item) else JoinedBy(sep, text)(items) + sep + text(item)
  {
    ImageAppend(text, items, item);
    JoinAppend(sep, Image(text, items), text(item));
  }

  lemma {:induction false} JoinConcat<A>(sep: string, text: A -> string, a: seq<A>, b: seq<A>)
    requires a != [] && b != []
    ensures JoinedBy(sep, text)(a + b) == JoinedBy(sep, text)(a) + sep + JoinedBy(sep, text)(b)
  {
    hide *;
    var n := |b| - 1;
    var front, last := b[..n], b[n];
    assert b == front + [last] && a + b == a + front + [last];
    JoinedByAppend(sep, text, front, last);
    JoinedByAppend(sep, text, a + front, last);
    if n == 0 {
      assert a + front == a;
    } else {
      JoinConcat(sep, text, a, front);
      JoinsAssociate(JoinedBy(sep, text)(a), sep, JoinedBy(sep, text)(front), text(last));
    }
  }

  lemma JoinsAssociate(a: string, sep: string, b: string, c: string)
    ensures (a + sep + b) + sep + c == a + sep + (b + sep + c)
  {
  }

  lemma {:induction false} JoinCons(sep: string, part: string, parts: seq<string>)
    requires parts != []
    ensures Join(sep, [part] + parts) == part + sep + Join(sep, parts)
  {
    var n := |parts| - 1;
    assert ([part] + parts)[..n + 1] == [part] + parts[..n];
    if n == 0 {
      assert [part] + parts[..n] == [part];
    } else {
      JoinCons(sep, part, parts[..n]);
      JoinAppend(sep, parts[..n], parts[n]);
      assert parts == parts[..n] + [parts[n]];
      JoinsAssociate(part, sep, Join(sep, parts[..n]), parts[n]);
    }
  }

  /** Joining the joined groups joins everything. */
  lemma {:induction false} JoinOfGroups<A>(sep: string, text: A -> string, groups: seq<seq<A>>)
    requires forall g :: g in groups ==> g != []
    ensures Join(sep, Image(JoinedBy(sep, text), groups)) == JoinedBy(sep, text)(Flatten(groups))
    ensures groups != [] ==> Flatten(groups) != []
  {
    if groups == [] {
      assert Image(JoinedBy(sep, text), groups) == [];
    } else {
      var n := |groups| - 1;
      var front, last := groups[..n], groups[n];
      assert groups == front + [last] && last in groups && last != [];
      assert forall g :: g in front ==> g in groups;
      JoinOfGroups(sep, text, front);
      assert front == [] ==> Flatten(front) + last == last;
      hide *;
      ImageAppend(JoinedBy(sep, text), front, last);
      JoinAppend(sep, Image(JoinedBy(sep, text), front), JoinedBy(sep, text)(last));
      FlattenAppend(front, last);
      if n > 0 {
        JoinConcat(sep, text, Flatten(front), last);
      }
    }
  }

  lemma ConcatAppend(parts: seq<string>, part: string)
    ensures Concat(parts + [part]) == Concat(parts) + part
  {
    assert (parts + [part])[..|parts|] == parts;
  }

  lemma {:induction false} ConcatConcat(s: seq<string>, t: seq<string>)
    ensures Concat(s + t) == Concat(s) + Concat(t)
  {
    if t == [] {
      assert s + t == s;
    } else {
      var n := |t| - 1;
      assert s + t == (s + t[..n]) + [t[n]];
      ConcatConcat(s, t[..n]);
      ConcatAppend(s + t[..n], t[n]);
    }
  }

  /** Every character Python's str.strip() removes. */
  predicate IsSpace(c: char) {
    || '\t' <= c <= '\r' || '\U{1c}' <= c <= ' ' || c == '\U{85}' || c == '\U{a0}' || c == '\U{1680}'
    || '\U{2000}' <= c <= '\U{200a}' || c == '\U{2028}' || c == '\U{2029}' || c == '\U{202f}'
    || c == '\U{205f}' || c == '\U{3000}'
  }

  function IsInk(c: char): bool { !IsSpace(c) }

  /** The text without its whitespace. */
  function Ink(s: string): string { Keep(IsInk, s) }

  lemma InkConcat(s: string, t: string)
    ensures Ink(s + t) == Ink(s) + Ink(t)
  {
    KeepConcat(IsInk, s, t);
  }

  function StripLeft(s: string): string {
    if s != "" && IsSpace(s[0]) then StripLeft(s[1..]) else s
  }

  function StripRight(s: string): string {
    if s != "" && IsSpace(s[|s| - 1]) then StripRight(s[..|s| - 1]) else s
  }

  function Strip(s: string): string { StripRight(StripLeft(s)) }

  lemma {:induction false} StripLeftInk(s: string)
    ensures Ink(StripLeft(s)) == Ink(s) && |StripLeft(s)| <= |s|
  {
    if s == "" || !IsSpace(s[0]) {
    } else {
      StripLeftInk(s[1..]);
      assert s == [s[0]] + s[1..];
      InkConcat([s[0]], s[1..]);
      assert Ink([s[0]]) == [];
    }
  }

  lemma {:induction false} StripRightInk(s: string)
    ensures Ink(StripRight(s)) == Ink(s) && |StripRight(s)| <= |s|
  {
    if s == "" || !IsSpace(s[|s| - 1]) {
    } else {
      StripRightInk(s[..|s| - 1]);
    }
  }

  /** Stripping loses no ink. */
  lemma StripInk(s: string)
    ensures Ink(Strip(s)) == Ink(s) && |Strip(s)| <= |s|
  {
    StripLeftInk(s);
    StripRightInk(StripLeft(s));
  }

  /** Where the first blank line at or after i starts, or the length of s. */
  function BlankLine(s: string, i: nat): (r: nat)
    requires i <= |s|
    ensures i <= r <= |s| && (r < |s| ==> r + 2 <= |s| && s[r] == s[r + 1] == '\n')
    decreases |s| - i
  {
    if i + 1 >= |s| then |s|
    else if s[i] == '\n' && s[i + 1] == '\n' then i
    else BlankLine(s, i + 1)
  }

  /** s.split("\n\n") */
  function SplitBlank(s: string): seq<string>
    decreases |s|
  {
    var cut := BlankLine(s, 0);
    if cut == |s| then [s] else [s[..cut]] + SplitBlank(s[cut + 2..])
  }

  lemma BlankHasNoInk(s: string)
    requires forall c :: c in s ==> !IsInk(c)
    ensures Ink(s) == []
  {
    KeepNone(IsInk, s);
  }

  lemma CutInk(s: string, cut: nat)
    requires cut + 2 <= |s| && s[cut] == s[cut + 1] == '\n'
    ensures Ink(s) == Ink(s[..cut]) + Ink(s[cut + 2..])
  {
    assert !IsInk('\n');
    hide *;
    var front, gap, back := s[..cut], s[cut..cut + 2], s[cut + 2..];
    assert s == front + (gap + back);
    InkConcat(front, gap + back);
    InkConcat(gap, back);
    BlankHasNoInk(gap);
    assert [] + Ink(back) == Ink(back);
  }

  lemma {:induction false} SplitBlankInk(s: string)
    ensures Ink(Concat(SplitBlank(s))) == Ink(s)
    ensures forall part :: part in SplitBlank(s) ==> |part| <= |s|
    decreases |s|
  {
    var cut := BlankLine(s, 0);
    if cut < |s| {
      var rest := s[cut + 2..];
      SplitBlankInk(rest);
      ConcatConcat([s[..cut]], SplitBlank(rest));
      assert Concat([s[..cut]]) == s[..cut];
      InkConcat(s[..cut], Concat(SplitBlank(rest)));
      CutInk(s, cut);
    } else {
      assert Concat([s]) == s;
    }
  }

  /** text.split("\n")[0] */
  function FirstLine(s: string): string {
    if s == "" || s[0] == '\n' then "" else [s[0]] + FirstLine(s[1..])
  }
}
