/** Cutting a normalized text into sections at Markdown headings. */
module MarkdownSections {
  import opened Common
  import opened Characters
  import opened Tokenizer
  import opened Normalization

  datatype Heading = Heading(level: nat, title: string)

  datatype Section = Section(text: string, headingPath: string)

  function HashRun(line: string): (n: nat)
    ensures n <= |line|
  {
    if line != "" && line[0] == '#' then 1 + HashRun(line[1..]) else 0
  }

  /** A heading line: one to six `#`, a whitespace character, and at least one more character. */
  function ParseHeading(line: string): Option<Heading> {
    var n := HashRun(line);
    if 1 <= n <= 6 && n + 2 <= |line| && IsSpace(line[n]) then Some(Heading(n, Strip(line[n..]))) else None
  }

  /** The headings of the stack with a smaller level. */
  function Above(stack: seq<Heading>, level: nat): seq<Heading> {
    if |stack| == 0 then []
    else (if stack[0].level < level then [stack[0]] else []) + Above(stack[1..], level)
  }

  function Push(stack: seq<Heading>, h: Heading): seq<Heading> {
    Above(stack, h.level) + [h]
  }

  function Titles(stack: seq<Heading>): seq<string> {
    if |stack| == 0 then [] else [stack[0].title] + Titles(stack[1..])
  }

  function HeadingPath(stack: seq<Heading>): string {
    Join(" / ", Titles(stack))
  }

  function Flush(lines: seq<string>, stack: seq<Heading>): seq<Section> {
    var text := Strip(Join("\n", lines));
    if text == "" then [] else [Section(text, HeadingPath(stack))]
  }

  /** The sections still to come when `current` are the lines of the open section and lines `i..` are unread. */
  function SectionsFrom(lines: seq<string>, i: nat, current: seq<string>, stack: seq<Heading>): seq<Section>
    requires i <= |lines|
    decreases |lines| - i
  {
    if i == |lines| then Flush(current, stack)
    else match ParseHeading(lines[i])
      case Some(h) => Flush(current, stack) + SectionsFrom(lines, i + 1, [lines[i]], Push(stack, h))
      case None => SectionsFrom(lines, i + 1, current + [lines[i]], stack)
  }

  function Sections(text: string): seq<Section> {
    SectionsFrom(Lines(text), 0, [], [])
  }

  function Texts(sections: seq<Section>): seq<string> {
    if |sections| == 0 then [] else [sections[0].text] + Texts(sections[1..])
  }

  /** The loop over the lines, with the heading stack it updates. */
  method ExtractMarkdownSections(text: string) returns (sections: seq<Section>)
    ensures sections == Sections(text)
  {
    hide Flush, ParseHeading, Push, Lines;
    sections := [];
    var headingStack: seq<Heading> := [];
    var currentLines: seq<string> := [];
    var lines := Lines(text);
    for i := 0 to |lines|
      invariant sections + SectionsFrom(lines, i, currentLines, headingStack) == Sections(text)
    {
      var line := lines[i];
      match ParseHeading(line) {
        case Some(h) =>
          sections := sections + Flush(currentLines, headingStack);
          currentLines := [];
          headingStack := Push(headingStack, h);
          assert currentLines + [line] == [line];
        case None =>
      }
      currentLines := currentLines + [line];
    }
    sections := sections + Flush(currentLines, headingStack);
  }

  // --- Sectioning keeps the tokens ------------------------------------------

  lemma {:induction false} TextsConcat(a: seq<Section>, b: seq<Section>)
    ensures Texts(a + b) == Texts(a) + Texts(b)
  {
    if |a| == 0 {
      assert a + b == b;
    } else {
      assert (a + b)[1..] == a[1..] + b;
      TextsConcat(a[1..], b);
    }
  }

  lemma {:induction false} FlushTokens(lines: seq<string>, stack: seq<Heading>)
    ensures TokensAll(Texts(Flush(lines, stack))) == TokensAll(lines)
  {
    var text := Strip(Join("\n", lines));
    TokensOfJoin("\n", lines);
    TokensOfStrip(Join("\n", lines));
    if text != "" {
      assert Texts([Section(text, HeadingPath(stack))]) == [text];
      assert TokensAll([text]) == Tokens(text) + TokensAll([text][1..]);
    }
  }

  lemma {:induction false} SectionsTokens(lines: seq<string>, i: nat, current: seq<string>, stack: seq<Heading>)
    requires i <= |lines|
    ensures TokensAll(Texts(SectionsFrom(lines, i, current, stack))) == TokensAll(current) + TokensAll(lines[i..])
    decreases |lines| - i
  {
    hide Flush, ParseHeading, Push;
    if i == |lines| {
      FlushTokens(current, stack);
    } else {
      var line := lines[i];
      assert lines[i..] == [line] + lines[i + 1..];
      TokensAllConcat([line], lines[i + 1..]);
      match ParseHeading(line) {
        case Some(h) =>
          var first, later := Flush(current, stack), SectionsFrom(lines, i + 1, [line], Push(stack, h));
          SectionsTokens(lines, i + 1, [line], Push(stack, h));
          TextsConcat(first, later);
          TokensAllConcat(Texts(first), Texts(later));
          FlushTokens(current, stack);
        case None =>
          SectionsTokens(lines, i + 1, current + [line], stack);
          TokensAllConcat(current, [line]);
      }
    }
  }

  /** Sectioning a text partitions its tokens among the sections, in order. */
  lemma {:induction false} SectionsKeepTokens(text: string)
    ensures TokensAll(Texts(Sections(text))) == Tokens(text)
  {
    var lines := Lines(text);
    SectionsTokens(lines, 0, [], []);
    LinesTokens(text);
    assert lines[0..] == lines;
  }

  // --- The heading stack is the outline -------------------------------------

  /** The headings of `hs` that no later heading of the same or a smaller level closes. */
  function Outline(hs: seq<Heading>): seq<Heading> {
    if |hs| == 0 then []
    else (if StaysOpen(hs) then [hs[0]] else []) + Outline(hs[1..])
  }

  function Headings(lines: seq<string>): seq<Heading> {
    if |lines| == 0 then []
    else match ParseHeading(lines[0])
      case Some(h) => [h] + Headings(lines[1..])
      case None => Headings(lines[1..])
  }

  predicate StaysOpen(hs: seq<Heading>)
    requires |hs| > 0
  {
    forall m | 0 < m < |hs| :: hs[m].level > hs[0].level
  }

  lemma {:induction false} OutlinePush(hs: seq<Heading>, h: Heading)
    ensures Outline(hs + [h]) == Push(Outline(hs), h)
  {
    if |hs| == 0 {
      assert Outline([h]) == [h] + Outline([h][1..]);
    } else {
      var all, rest := hs + [h], Outline(hs[1..]);
      assert all[1..] == hs[1..] + [h];
      OutlinePush(hs[1..], h);
      assert StaysOpen(all) <==> StaysOpen(hs) && hs[0].level < h.level by {
        assert all[|hs|] == h;
        assert forall m | 0 <= m < |hs| :: all[m] == hs[m];
      }
      if StaysOpen(hs) {
        assert Outline(hs) == [hs[0]] + rest && ([hs[0]] + rest)[1..] == rest;
        assert Above(Outline(hs), h.level) == (if hs[0].level < h.level then [hs[0]] else []) + Above(rest, h.level);
      } else {
        assert Outline(hs) == rest;
      }
    }
  }

  lemma {:induction false} HeadingsSnoc(lines: seq<string>, line: string)
    ensures Headings(lines + [line]) ==
            Headings(lines) + (match ParseHeading(line) case Some(h) => [h] case None => [])
  {
    if |lines| == 0 {
      assert Headings([line][1..]) == [];
    } else {
      assert (lines + [line])[1..] == lines[1..] + [line];
      HeadingsSnoc(lines[1..], line);
    }
  }

  /** Lines `a..b` form one section: a heading, if any, comes first, and the next line, if any, is a heading. */
  predicate IsBlock(lines: seq<string>, a: nat, b: nat) {
    && a <= b <= |lines|
    && (forall i | a < i < b :: ParseHeading(lines[i]).None?)
    && (b < |lines| ==> ParseHeading(lines[b]).Some?)
    && (a > 0 ==> a < b && ParseHeading(lines[a]).Some?)
  }

  /** `s` is the section made of the block `a..b`, under the headings that are open there. */
  predicate IsSectionOf(lines: seq<string>, s: Section, a: nat, b: nat) {
    && IsBlock(lines, a, b)
    && s == Section(Strip(Join("\n", lines[a..b])), HeadingPath(Outline(Headings(lines[..b]))))
    && s.text != ""
  }

  /** The sections found from line `i` on when the open block starts at line `a`. */
  function Remaining(lines: seq<string>, a: nat, i: nat): seq<Section>
    requires a <= i <= |lines|
  {
    SectionsFrom(lines, i, lines[a..i], Outline(Headings(lines[..i])))
  }

  lemma {:induction false} RemainingStep(lines: seq<string>, a: nat, i: nat)
    requires a <= i < |lines|
    ensures Remaining(lines, a, i) ==
            if ParseHeading(lines[i]).Some?
            then Flush(lines[a..i], Outline(Headings(lines[..i]))) + Remaining(lines, i, i + 1)
            else Remaining(lines, a, i + 1)
  {
    hide Flush, ParseHeading, Push, Outline, Headings;
    var line := lines[i];
    HeadingsSnoc(lines[..i], line);
    assert lines[..i + 1] == lines[..i] + [line];
    assert lines[i..i + 1] == [line] && lines[a..i + 1] == lines[a..i] + [line];
    match ParseHeading(line) {
      case Some(h) => OutlinePush(Headings(lines[..i]), h);
      case None => assert Headings(lines[..i]) + [] == Headings(lines[..i]);
    }
  }

  lemma {:induction false} RemainingEnd(lines: seq<string>, a: nat)
    requires a <= |lines|
    ensures Remaining(lines, a, |lines|) == Flush(lines[a..|lines|], Outline(Headings(lines[..|lines|])))
  {
    hide Flush, Outline, Headings;
  }

  lemma {:induction false} BlockIsSection(lines: seq<string>, a: nat, i: nat, k: nat)
    requires IsBlock(lines, a, i)
    requires k < |Flush(lines[a..i], Outline(Headings(lines[..i])))|
    ensures IsSectionOf(lines, Flush(lines[a..i], Outline(Headings(lines[..i])))[k], a, i)
  {
    hide ParseHeading, Outline, Headings, IsBlock, Strip, Join;
  }

  lemma {:induction false} SectionsAreBlocks(lines: seq<string>, a: nat, i: nat, k: nat) returns (x: nat, y: nat)
    requires a <= i <= |lines|
    requires forall j | a < j < i :: ParseHeading(lines[j]).None?
    requires a > 0 ==> a < i && ParseHeading(lines[a]).Some?
    requires k < |Remaining(lines, a, i)|
    ensures IsSectionOf(lines, Remaining(lines, a, i)[k], x, y)
    decreases |lines| - i
  {
    hide ParseHeading, Outline, Headings, Flush, IsSectionOf, Remaining;
    var first := Flush(lines[a..i], Outline(Headings(lines[..i])));
    if i == |lines| {
      RemainingEnd(lines, a);
      BlockIsSection(lines, a, i, k);
      x, y := a, i;
    } else {
      RemainingStep(lines, a, i);
      if ParseHeading(lines[i]).None? {
        x, y := SectionsAreBlocks(lines, a, i + 1, k);
      } else if k < |first| {
        BlockIsSection(lines, a, i, k);
        x, y := a, i;
      } else {
        x, y := SectionsAreBlocks(lines, i, i + 1, k - |first|);
      }
    }
  }

  /** Every section is a whole block of lines, and its heading path lists the headings open over that block. */
  lemma {:induction false} SectionProvenance(text: string, k: nat) returns (a: nat, b: nat)
    requires k < |Sections(text)|
    ensures IsSectionOf(Lines(text), Sections(text)[k], a, b)
  {
    var lines := Lines(text);
    assert lines[0..0] == [] && Headings(lines[..0]) == [] && Outline([]) == [];
    a, b := SectionsAreBlocks(lines, 0, 0, k);
  }
}
