/** Which headings are open over the lines that a Markdown parent chunk holds. */
module OpenHeadings {
  import opened Common
  import opened Characters
  import opened Tokenizer
  import opened Normalization
  import opened MarkdownSections
  import opened Chunking
  import opened ChunkingTheorems
  import opened HeadingPaths
  import opened ChunkFormats

  /** The titles open at line `i`: those of the headings up to it that none of the following ones closes. */
  function PathAt(lines: seq<string>, i: nat): string
    requires i < |lines|
  {
    var open := Outline(Headings(lines[..i + 1]));
    Join(" / ", seq(|open|, k requires 0 <= k < |open| => open[k].title))
  }

  lemma {:induction false} PathOfStack(stack: seq<Heading>)
    ensures HeadingPath(stack) == Join(" / ", seq(|stack|, k requires 0 <= k < |stack| => stack[k].title))
  {
    TitlesOfStack(stack);
    assert Titles(stack) == seq(|stack|, k requires 0 <= k < |stack| => stack[k].title);
  }

  lemma {:induction false} TitlesOfStack(stack: seq<Heading>)
    ensures |Titles(stack)| == |stack| && forall k | 0 <= k < |stack| :: Titles(stack)[k] == stack[k].title
  {
    if stack != [] {
      TitlesOfStack(stack[1..]);
    }
  }

  /** Each of the lines `x..y` as a section of its own. */
  function LineSections(lines: seq<string>, x: nat, y: nat): seq<Section>
    requires x <= y <= |lines|
  {
    seq(y - x, i requires 0 <= i < y - x => Section(lines[x + i], PathAt(lines, x + i)))
  }

  /** The start, the end, or a heading line. */
  predicate IsBorder(lines: seq<string>, x: nat) {
    x <= |lines| && (0 < x < |lines| ==> ParseHeading(lines[x]).Some?)
  }

  // --- Sections tile the lines ----------------------------------------------------------

  /** The section holds the lines `x..y`, and its path is open at each of them. */
  ghost predicate IsTile(lines: seq<string>, s: Section, x: nat, y: nat) {
    && x < y <= |lines| && IsBorder(lines, x) && IsBorder(lines, y)
    && Tokens(s.text) == TokensAll(lines[x..y])
    && forall i | x <= i < y :: PathAt(lines, i) == s.headingPath
  }

  ghost predicate TileAt(lines: seq<string>, sections: seq<Section>, cuts: seq<nat>, k: nat)
    requires |cuts| == |sections| + 1 && k < |sections|
  {
    IsTile(lines, sections[k], cuts[k], cuts[k + 1])
  }

  ghost predicate Tiles(lines: seq<string>, sections: seq<Section>, cuts: seq<nat>) {
    |cuts| == |sections| + 1 && forall k | 0 <= k < |sections| :: TileAt(lines, sections, cuts, k)
  }

  lemma {:induction false} HeadingsSame(lines: seq<string>, j: nat, i: nat)
    requires j <= i <= |lines| && forall m | j <= m < i :: ParseHeading(lines[m]).None?
    ensures Headings(lines[..i]) == Headings(lines[..j])
  {
    hide ParseHeading, Headings;
    if j < i {
      HeadingsSame(lines, j, i - 1);
      HeadingsSnoc(lines[..i - 1], lines[i - 1]);
      assert lines[..i] == lines[..i - 1] + [lines[i - 1]];
    }
  }

  lemma {:induction false} FlushTile(lines: seq<string>, a: nat, i: nat)
    requires a < i <= |lines| && IsBorder(lines, a) && IsBorder(lines, i)
    requires Tokens(lines[a]) != [] && forall m | a < m < i :: ParseHeading(lines[m]).None?
    ensures var flushed := Flush(lines[a..i], Outline(Headings(lines[..i])));
            |flushed| == 1 && IsTile(lines, flushed[0], a, i)
  {
    hide ParseHeading, Headings, Outline, Tokens, Strip, Join;
    FlushTokens(lines[a..i], Outline(Headings(lines[..i])));
    assert TokensAll(lines[a..i]) == Tokens(lines[a..i][0]) + TokensAll(lines[a..i][1..]);
    var flushed := Flush(lines[a..i], Outline(Headings(lines[..i])));
    assert flushed == [] ==> Texts(flushed) == [];
    assert flushed != [] ==> Texts(flushed) == [flushed[0].text] && TokensAll([flushed[0].text][1..]) == [];
    forall j | a <= j < i
      ensures PathAt(lines, j) == HeadingPath(Outline(Headings(lines[..i])))
    {
      HeadingsSame(lines, j + 1, i);
      PathOfStack(Outline(Headings(lines[..i])));
    }
  }

  lemma {:induction false} HeadingHasTokens(line: string)
    requires ParseHeading(line).Some?
    ensures Tokens(line) != []
  {
    TokensOfSpace(line);
  }

  lemma {:induction false} TilesCons(
    lines: seq<string>, s: Section, a: nat, sections: seq<Section>, cuts: seq<nat>)
    requires Tiles(lines, sections, cuts) && IsTile(lines, s, a, cuts[0])
    ensures Tiles(lines, [s] + sections, [a] + cuts)
  {
    hide IsTile;
    var all, marks := [s] + sections, [a] + cuts;
    forall k | 0 <= k < |all|
      ensures TileAt(lines, all, marks, k)
    {
      if k > 0 {
        assert TileAt(lines, sections, cuts, k - 1);
      }
    }
  }

  lemma {:induction false} RemainingTiles(lines: seq<string>, a: nat, i: nat) returns (cuts: seq<nat>)
    requires a < i <= |lines| && IsBorder(lines, a)
    requires Tokens(lines[a]) != [] && forall m | a < m < i :: ParseHeading(lines[m]).None?
    ensures Tiles(lines, Remaining(lines, a, i), cuts)
    ensures cuts[0] == a && cuts[|cuts| - 1] == |lines|
    decreases |lines| - i
  {
    hide ParseHeading, Outline, Headings, Flush, Remaining, Tokens, IsTile;
    var flushed := Flush(lines[a..i], Outline(Headings(lines[..i])));
    if i == |lines| {
      RemainingEnd(lines, a);
      FlushTile(lines, a, i);
      cuts := [a, i];
      assert TileAt(lines, flushed, cuts, 0);
    } else {
      RemainingStep(lines, a, i);
      if ParseHeading(lines[i]).None? {
        cuts := RemainingTiles(lines, a, i + 1);
      } else {
        FlushTile(lines, a, i);
        HeadingHasTokens(lines[i]);
        var rest := RemainingTiles(lines, i, i + 1);
        cuts := [a] + rest;
        assert flushed == [flushed[0]];
        TilesCons(lines, flushed[0], a, Remaining(lines, i, i + 1), rest);
      }
    }
  }

  lemma {:induction false} FirstLine(text: string)
    requires text != "" && !IsSpace(text[0])
    ensures Tokens(Lines(text)[0]) != []
  {
    TokensOfSpace(Lines(text)[0]);
    assert text[0] != '\n';
    assert Lines(text)[0][0] == text[0];
  }

  /** The sections of a text that starts with a visible character tile its lines. */
  lemma {:induction false} SectionsTile(text: string) returns (cuts: seq<nat>)
    requires text != "" && !IsSpace(text[0])
    ensures Tiles(Lines(text), Sections(text), cuts)
    ensures cuts[0] == 0 && cuts[|cuts| - 1] == |Lines(text)|
  {
    hide ParseHeading, Outline, Headings, Tokens, IsTile, Flush, Lines;
    var lines := Lines(text);
    FirstLine(text);
    RemainingStep(lines, 0, 0);
    assert lines[0..0] == [] && lines[..0] == [];
    NothingOpen();
    cuts := RemainingTiles(lines, 0, 1);
    assert Remaining(lines, 0, 0) == Sections(text) == Remaining(lines, 0, 1);
  }

  lemma NothingOpen()
    ensures Headings([]) == [] && Outline([]) == [] && Flush([], []) == []
  {
    StripOfTrimmed("");
  }

  // --- Ranges of tiles --------------------------------------------------------------------

  lemma {:induction false} TilesPart(
    lines: seq<string>, sections: seq<Section>, cuts: seq<nat>, k: nat, m: nat)
    requires Tiles(lines, sections, cuts) && k <= m <= |sections|
    ensures Tiles(lines, sections[k..m], cuts[k..m + 1])
  {
    hide IsTile;
    var part, marks := sections[k..m], cuts[k..m + 1];
    forall j | 0 <= j < |part|
      ensures TileAt(lines, part, marks, j)
    {
      assert TileAt(lines, sections, cuts, k + j);
    }
  }

  /** Tiles cover a range of lines without gap and keep its tokens. */
  lemma {:induction false} TilesKeepTokens(lines: seq<string>, sections: seq<Section>, cuts: seq<nat>)
    requires Tiles(lines, sections, cuts) && sections != []
    ensures cuts[0] < cuts[|sections|] <= |lines|
    ensures IsBorder(lines, cuts[0]) && IsBorder(lines, cuts[|sections|])
    ensures TokensAll(Texts(sections)) == TokensAll(lines[cuts[0]..cuts[|sections|]])
  {
    hide Tokens, IsBorder, PathAt;
    var n := |sections| - 1;
    var s := sections[n];
    assert TileAt(lines, sections, cuts, n);
    assert sections == sections[..n] + [s];
    TextsConcat(sections[..n], [s]);
    assert Texts([s]) == [s.text];
    TokensAllConcat(Texts(sections[..n]), [s.text]);
    assert TokensAll([s.text]) == Tokens(s.text) + TokensAll([s.text][1..]);
    if n == 0 {
      assert sections[..n] == [];
    } else {
      TilesPart(lines, sections, cuts, 0, n);
      assert sections[0..n] == sections[..n];
      TilesKeepTokens(lines, sections[..n], cuts[0..n + 1]);
      TokensAllConcat(lines[cuts[0]..cuts[n]], lines[cuts[n]..cuts[n + 1]]);
      assert lines[cuts[0]..cuts[n + 1]] == lines[cuts[0]..cuts[n]] + lines[cuts[n]..cuts[n + 1]];
    }
  }

  /** The tile that line `i` lies on. */
  lemma {:induction false} TileOf(lines: seq<string>, sections: seq<Section>, cuts: seq<nat>, i: nat)
    returns (g: nat)
    requires Tiles(lines, sections, cuts) && cuts[0] <= i < cuts[|sections|]
    ensures g < |sections| && cuts[g] <= i < cuts[g + 1] <= |lines|
    ensures i < |lines| && PathAt(lines, i) == sections[g].headingPath
  {
    hide PathAt, IsBorder, Tokens;
    g := 0;
    while cuts[g + 1] <= i
      invariant g < |sections| && cuts[g] <= i
      decreases |sections| - g
    {
      g := g + 1;
    }
    assert TileAt(lines, sections, cuts, g);
  }

  lemma {:induction false} CutsAscend(
    lines: seq<string>, sections: seq<Section>, cuts: seq<nat>, k: nat, m: nat)
    requires Tiles(lines, sections, cuts) && k < m <= |sections|
    ensures cuts[k] < cuts[m]
  {
    hide PathAt, IsBorder, Tokens;
    assert TileAt(lines, sections, cuts, m - 1);
    if k < m - 1 {
      CutsAscend(lines, sections, cuts, k, m - 1);
    }
  }

  /** The first line under a path is the first line of the first section under it. */
  lemma {:induction false} FirstLineUnder(lines: seq<string>, sections: seq<Section>, cuts: seq<nat>, path: string)
    requires Tiles(lines, sections, cuts) && sections != [] && cuts[0] < cuts[|sections|] <= |lines|
    ensures var ls := LineSections(lines, cuts[0], cuts[|sections|]);
            && (IsPathOf(ls, path) <==> IsPathOf(sections, path))
            && (IsPathOf(sections, path) ==>
                  FirstAt(sections, path) < |sections|
                  && cuts[0] + FirstAt(ls, path) == cuts[FirstAt(sections, path)])
  {
    hide FirstAt, PathAt, TileAt;
    var ls := LineSections(lines, cuts[0], cuts[|sections|]);
    var g := FirstAt(sections, path);
    if IsPathOf(ls, path) {
      var i :| 0 <= i < |ls| && ls[i].headingPath == path;
      var h := TileOf(lines, sections, cuts, cuts[0] + i);
    }
    if IsPathOf(sections, path) {
      var x := HeadOfTile(lines, sections, cuts, g);
      assert ls[x].headingPath == path;
      forall i | 0 <= i < x
        ensures ls[i].headingPath != path
      {
        var h := TileOf(lines, sections, cuts, cuts[0] + i);
        if h >= g {
          EarlierCut(lines, sections, cuts, g, h);
        }
      }
    }
  }

  lemma {:induction false} EarlierCut(
    lines: seq<string>, sections: seq<Section>, cuts: seq<nat>, g: nat, h: nat)
    requires Tiles(lines, sections, cuts) && g <= h <= |sections|
    ensures cuts[g] <= cuts[h]
  {
    if g < h {
      CutsAscend(lines, sections, cuts, g, h);
    }
  }

  lemma {:induction false} HeadOfTile(lines: seq<string>, sections: seq<Section>, cuts: seq<nat>, g: nat)
    returns (x: nat)
    requires Tiles(lines, sections, cuts) && g < |sections|
    ensures cuts[0] + x == cuts[g] < cuts[|sections|]
    ensures cuts[g] < |lines| && PathAt(lines, cuts[g]) == sections[g].headingPath
  {
    hide PathAt, IsBorder, Tokens;
    EarlierCut(lines, sections, cuts, 0, g);
    CutsAscend(lines, sections, cuts, g, |sections|);
    x := cuts[g] - cuts[0];
    assert TileAt(lines, sections, cuts, g);
  }

  lemma {:induction false} SamePaths(
    lines: seq<string>, sections: seq<Section>, cuts: seq<nat>, paths: seq<string>)
    requires Tiles(lines, sections, cuts) && sections != [] && cuts[0] < cuts[|sections|] <= |lines|
    requires FirstOccurrences(sections, paths)
    ensures FirstOccurrences(LineSections(lines, cuts[0], cuts[|sections|]), paths)
  {
    hide FirstAt, PathAt, TileAt, LineSections;
    var ls := LineSections(lines, cuts[0], cuts[|sections|]);
    forall p
      ensures p in paths <==> IsPathOf(ls, p)
    {
      FirstLineUnder(lines, sections, cuts, p);
    }
    forall i, j | 0 <= i < j < |paths|
      ensures FirstAt(ls, paths[i]) < FirstAt(ls, paths[j])
    {
      assert paths[i] in paths && paths[j] in paths;
      FirstLineUnder(lines, sections, cuts, paths[i]);
      FirstLineUnder(lines, sections, cuts, paths[j]);
      CutsAscend(lines, sections, cuts, FirstAt(sections, paths[i]), FirstAt(sections, paths[j]));
    }
  }

  // --- Markdown documents -----------------------------------------------------------------

  lemma {:induction false} FlattenPart(groups: seq<seq<Section>>, g: nat) returns (k: nat, m: nat)
    requires g < |groups|
    ensures k == |Flatten(groups[..g])| && m == k + |groups[g]| <= |Flatten(groups)|
    ensures Flatten(groups)[..k] == Flatten(groups[..g]) && Flatten(groups)[k..m] == groups[g]
  {
    if g == 0 {
      k, m := 0, |groups[0]|;
      assert groups[..0] == [];
    } else {
      k, m := FlattenPart(groups[1..], g - 1);
      assert groups[..g][1..] == groups[1..][..g - 1];
      var n := |groups[0]|;
      k, m := k + n, m + n;
      assert Flatten(groups)[n..] == Flatten(groups[1..]);
      assert Flatten(groups)[k..m] == Flatten(groups[1..])[k - n..m - n];
      assert Flatten(groups)[..k] == groups[0] + Flatten(groups[1..])[..k - n];
    }
  }

  /** What a stretch of parents holds: the tokens of the lines `x..y`, after parents that hold those of the lines
      before, and `paths` lists the paths open over these lines, each once, in order. */
  ghost predicate HoldsLines(
    lines: seq<string>, chunks: seq<ChunkDraft>, a: nat, b: nat, x: nat, y: nat, paths: seq<string>) {
    && a < b <= |chunks| && x < y <= |lines| && IsBorder(lines, x) && IsBorder(lines, y)
    && TokensAll(DraftTexts(chunks[..a])) == TokensAll(lines[..x])
    && TokensAll(DraftTexts(chunks[a..b])) == TokensAll(lines[x..y])
    && FirstOccurrences(LineSections(lines, x, y), paths)
  }

  lemma {:induction false} HeldLines(
    lines: seq<string>, groups: seq<seq<Section>>, cuts: seq<nat>, parents: seq<ChunkDraft>, g: nat, a: nat, b: nat,
    paths: seq<string>) returns (x: nat, y: nat)
    requires Tiles(lines, Flatten(groups), cuts) && cuts[0] == 0
    requires PackedFrom(parents, groups, g, a, b) && groups[g] != []
    requires FirstOccurrences(groups[g], paths)
    ensures HoldsLines(lines, parents, a, b, x, y, paths)
  {
    hide TileAt, Flatten, IsBorder, FirstOccurrences, TokensAll, Texts, DraftTexts, LineSections;
    var sections := Flatten(groups);
    var k, m := FlattenPart(groups, g);
    x, y := cuts[k], cuts[m];
    TilesPart(lines, sections, cuts, k, m);
    TilesKeepTokens(lines, sections[k..m], cuts[k..m + 1]);
    SamePaths(lines, sections[k..m], cuts[k..m + 1], paths);
    NoTexts();
    if k > 0 {
      TilesPart(lines, sections, cuts, 0, k);
      assert sections[0..k] == sections[..k];
      TilesKeepTokens(lines, sections[..k], cuts[0..k + 1]);
      assert lines[0..x] == lines[..x];
    } else {
      assert lines[..x] == [] && sections[..k] == [];
    }
  }

  lemma NoTexts()
    ensures TokensAll(Texts([])) == TokensAll([]) == []
  {}

  lemma {:induction false} NormalSections(content: string) returns (cuts: seq<nat>)
    requires Normalize(content) != ""
    ensures Tiles(Lines(Normalize(content)), SectionsOf(Normalize(content), true), cuts) && cuts[0] == 0
  {
    hide Normalize, TileAt, Lines, Sections;
    NormalizeIsNormal(content);
    cuts := SectionsTile(Normalize(content));
  }

  lemma PackedRange(parents: seq<ChunkDraft>, groups: seq<seq<Section>>, g: nat, a: nat, b: nat)
    requires PackedFrom(parents, groups, g, a, b)
    ensures g < |groups| && a < b <= |parents|
  {
    hide TokensAll, DraftTexts, Texts, Flatten;
  }

  lemma SameHolds(
    lines: seq<string>, parents: seq<ChunkDraft>, chunks: seq<ChunkDraft>, a: nat, b: nat, x: nat, y: nat,
    paths: seq<string>)
    requires HoldsLines(lines, parents, a, b, x, y, paths) && parents <= chunks
    ensures HoldsLines(lines, chunks, a, b, x, y, paths)
  {
    hide TokensAll, DraftTexts, FirstOccurrences, IsBorder, LineSections;
    assert chunks[..a] == parents[..a] && chunks[a..b] == parents[a..b];
  }

  /** Every parent of a Markdown document belongs to a stretch of parents that holds a range of whole sections of the
      normalized text, and its heading path lists the outline titles open over these lines. */
  lemma {:induction false} MarkdownPaths(content: string, config: Config, i: nat)
    returns (n: nat, a: nat, b: nat, x: nat, y: nat, paths: seq<string>)
    requires config.Valid() && Pipeline(content, true, config).Chunked?
    requires i < |Pipeline(content, true, config).chunks|
    requires Pipeline(content, true, config).chunks[i].kind == Parent
    ensures var Chunked(text, chunks) := Pipeline(content, true, config);
            && ParentsFirst(chunks, n) && a <= i < b <= n
            && HoldsLines(Lines(text), chunks, a, b, x, y, paths)
            && chunks[i].headingPath == Join(" | ", paths)
  {
    hide Pipeline, Normalize, TileAt, Lines, SectionsOf, Parents, PackedFrom, FirstOccurrences, IsGreedy, Flatten,
      DraftTexts, TokensAll, LineSections, IsBorder, Weight, Join;
    ParentsAre(content, true, config);
    var text, chunks, parents :=
      Normalize(content), Pipeline(content, true, config).chunks, Parents(content, true, config);
    n := |parents|;
    assert i < n;
    var cuts := NormalSections(content);
    var sections := SectionsOf(text, true);
    var groups := GroupsFrom(sections, 0, [], config.parentTarget);
    EmptyWeight();
    GroupsAreGreedy(sections, 0, [], config.parentTarget);
    assert [] + sections[0..] == sections;
    GroupsNotEmpty(sections, 0, [], config.parentTarget);
    var g;
    g, a, b, paths := ParentHeadingPath(content, true, config, groups, i);
    PackedRange(parents, groups, g, a, b);
    x, y := HeldLines(Lines(text), groups, cuts, parents, g, a, b, paths);
    SameHolds(Lines(text), parents, chunks, a, b, x, y, paths);
    assert chunks[i] == parents[i];
  }
}
