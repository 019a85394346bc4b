/** What the content format does to the chunks of a document, told from the lines of its normalized text. */
module ChunkFormats {
  import opened Common
  import opened Characters
  import opened Tokenizer
  import opened Normalization
  import opened MarkdownSections
  import opened TokenWindows
  import opened Chunking
  import opened ChunkingTheorems
  import opened HeadingPaths

  // --- Heading lines --------------------------------------------------------------------

  function Hashes(n: nat): string { seq(n, i => '#') }

  /** The line is `n` hashes, a whitespace character and a non-empty rest, and the title is the rest stripped. */
  predicate SpellsHeading(line: string, n: nat, title: string) {
    && 1 <= n <= 6 && n + 2 <= |line|
    && line[..n] == Hashes(n) && IsSpace(line[n]) && title == Strip(line[n + 1..])
  }

  lemma {:induction false} HashRunOf(line: string, n: nat)
    requires n <= |line| && line[..n] == Hashes(n) && (n < |line| ==> line[n] != '#')
    ensures HashRun(line) == n
  {
    if n > 0 {
      assert line[0] == line[..n][0] == '#';
      assert line[1..][..n - 1] == line[..n][1..] == Hashes(n - 1);
      HashRunOf(line[1..], n - 1);
    }
  }

  lemma {:induction false} HashRunSpells(line: string)
    ensures line[..HashRun(line)] == Hashes(HashRun(line))
  {
    if line != "" && line[0] == '#' {
      HashRunSpells(line[1..]);
      var n := HashRun(line);
      forall i | 0 <= i < n
        ensures line[i] == '#'
      {
        if i > 0 {
          assert line[i] == line[1..][..n - 1][i - 1];
        }
      }
    }
  }

  lemma {:induction false} StripAfterSpace(s: string)
    requires s != "" && IsSpace(s[0])
    ensures Strip(s) == Strip(s[1..])
  {}

  /** A line parses to a heading exactly when it spells it. */
  lemma {:induction false} ParseHeadingIff(line: string, n: nat, title: string)
    ensures ParseHeading(line) == Some(Heading(n, title)) <==> SpellsHeading(line, n, title)
  {
    hide Strip;
    HashRunSpells(line);
    var k := HashRun(line);
    if k < |line| && IsSpace(line[k]) {
      StripAfterSpace(line[k..]);
      assert line[k..][1..] == line[k + 1..];
    }
    if SpellsHeading(line, n, title) {
      assert line[n] != '#';
      HashRunOf(line, n);
    }
  }

  /** Writing a heading and parsing it gives it back. */
  lemma {:induction false} HeadingRoundTrip(n: nat, title: string)
    requires 1 <= n <= 6 && title != "" && Trimmed(title)
    ensures ParseHeading(Hashes(n) + " " + title) == Some(Heading(n, title))
  {
    hide Strip, ParseHeading;
    var line := Hashes(n) + " " + title;
    assert line[..n] == Hashes(n) && line[n] == ' ' && line[n + 1..] == title;
    StripOfTrimmed(title);
    ParseHeadingIff(line, n, title);
  }

  // --- Parents and children ---------------------------------------------------------------

  /** The first `n` chunks are the parents, all others children. */
  predicate ParentsFirst(chunks: seq<ChunkDraft>, n: nat) {
    n <= |chunks| && forall i | 0 <= i < |chunks| :: chunks[i].kind == Parent <==> i < n
  }

  lemma {:induction false} ParentsAre(content: string, markdown: bool, config: Config)
    requires config.Valid() && Pipeline(content, markdown, config).Chunked?
    ensures var chunks, parents := Pipeline(content, markdown, config).chunks, Parents(content, markdown, config);
            ParentsFirst(chunks, |parents|) && chunks[..|parents|] == parents
    ensures Pipeline(content, markdown, config).normalizedText == Normalize(content) != ""
  {
    hide Pipeline, Parents, Normalize, ChildrenFrom;
    PipelineChunks(content, markdown, config);
    var chunks, parents := Pipeline(content, markdown, config).chunks, Parents(content, markdown, config);
    forall i | 0 <= i < |chunks|
      ensures chunks[i].kind == Parent <==> i < |parents|
    {
      OrdinalsAndParents(content, markdown, config, parents, chunks, i);
    }
  }

  // --- Plain documents ----------------------------------------------------------------------

  lemma {:induction false} OneGroup(s: Section, target: nat)
    requires target > 0 && s.headingPath == ""
    ensures RenderAll([[s]], target) ==
            if TokenCount(s.text) > target
            then Pieces(Split(s.text, target, 0), "") else [ParentText(Strip(s.text), "")]
  {
    hide Strip, TokenCount, Split;
    var group: seq<Section> := [s];
    var groups: seq<seq<Section>> := [group];
    assert groups[1..] == [] && group[..0] == [] && group[1..] == [];
    assert Texts(group) == [s.text];
    assert UniquePaths(group) == [];
    assert RenderAll(groups, target) == Render(group, target);
  }

  lemma {:induction false} OneSection(text: string, target: nat)
    requires target > 0 && Trimmed(text) && TokenCount(text) > 0
    ensures ParentTexts([Section(text, "")], target) == Pieces(Split(text, target, 0), "")
    ensures TokenCount(text) <= target ==> Split(text, target, 0) == [text]
  {
    hide Strip, Tokens, Matches, Weight;
    var s := Section(text, "");
    var sections: seq<Section> := [s];
    var groups: seq<seq<Section>> := [sections];
    StripOfTrimmed(text);
    MatchesAreTokens(text, 0);
    assert text[0..] == text;
    assert GroupsFrom(sections, 0, [], target) == groups by {
      assert GroupsFrom(sections, 1, [], target) == [];
      assert [] + sections == sections && GroupsFrom(sections, 1, sections, target) == groups;
    }
    OneGroup(s, target);
  }

  /** A plain document has no headings: every heading path is empty and the parents are the windows of the normalized
      text, which is one parent by itself when it fits the budget. */
  lemma {:induction false} PlainChunks(content: string, config: Config) returns (n: nat)
    requires config.Valid() && Pipeline(content, false, config).Chunked?
    ensures var Chunked(text, chunks) := Pipeline(content, false, config);
            && ParentsFirst(chunks, n)
            && (forall i | 0 <= i < |chunks| :: chunks[i].headingPath == "")
            && DraftTexts(chunks[..n]) == Split(text, config.parentTarget, 0)
            && (TokenCount(text) <= config.parentTarget ==> n == 1 && chunks[0].text == text)
  {
    hide Pipeline, Normalize, Split, TokenCount, ParentTexts, ParentDraft, Parents;
    var text, chunks := Normalize(content), Pipeline(content, false, config).chunks;
    ParentsAre(content, false, config);
    NormalHasTokens(content);
    NormalizeIsNormal(content);
    OneSection(text, config.parentTarget);
    var texts := Split(text, config.parentTarget, 0);
    n := |Parents(content, false, config)|;
    PlainParents(content, config);
    assert forall i | 0 <= i < n :: DraftTexts(chunks[..n])[i] == chunks[i].text;
    forall i | 0 <= i < |chunks|
      ensures chunks[i].headingPath == ""
    {
      if i < n {
        assert chunks[i] == chunks[..n][i];
      } else {
        var p := ChildHeadingPath(content, false, config, i);
      }
    }
  }

  lemma {:induction false} PlainParents(content: string, config: Config)
    requires config.Valid() && Normalize(content) != ""
    ensures var parents := Parents(content, false, config);
            DraftTexts(parents) == Split(Normalize(content), config.parentTarget, 0)
            && forall i | 0 <= i < |parents| :: parents[i].headingPath == ""
  {
    hide Normalize, Split, TokenCount, ParentTexts;
    NormalHasTokens(content);
    NormalizeIsNormal(content);
    OneSection(Normalize(content), config.parentTarget);
  }
}
