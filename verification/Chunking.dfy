/** From a document to its parent chunks and their overlapping child chunks. */
module Chunking {
  import opened Common
  import opened Characters
  import opened Tokenizer
  import opened Normalization
  import opened MarkdownSections
  import opened TokenWindows
  import opened ChunkRefs

  datatype Config = Config(parentTarget: nat, childTarget: nat, childOverlap: nat)
  {
    predicate Valid() {
      parentTarget >= 40 && childTarget >= 16 && childOverlap < childTarget
    }
  }

  datatype ChunkKind = Parent | Child

  datatype ChunkDraft = ChunkDraft(
    ref: string, kind: ChunkKind, ordinal: nat, text: string, tokenCount: nat,
    parentRef: Option<string>, headingPath: string)

  datatype PipelineResult = EmptyDocument | Chunked(normalizedText: string, chunks: seq<ChunkDraft>)

  /** The text and heading path of a parent chunk before it is numbered. */
  datatype ParentText = ParentText(text: string, headingPath: string)

  // --- Packing sections into parents ----------------------------------------

  function Weight(sections: seq<Section>): nat {
    |TokensAll(Texts(sections))|
  }

  function Close(current: seq<Section>): seq<seq<Section>> {
    if current == [] then [] else [current]
  }

  /** The groups still to come when `current` is open and sections `i..` are unread. */
  function GroupsFrom(sections: seq<Section>, i: nat, current: seq<Section>, target: nat): seq<seq<Section>>
    requires i <= |sections|
    decreases |sections| - i
  {
    if i == |sections| then Close(current)
    else
      var s := sections[i];
      if TokenCount(s.text) > target then Close(current) + [[s]] + GroupsFrom(sections, i + 1, [], target)
      else if current != [] && Weight(current) + TokenCount(s.text) > target then
        Close(current) + GroupsFrom(sections, i + 1, [s], target)
      else GroupsFrom(sections, i + 1, current + [s], target)
  }

  function UniquePaths(sections: seq<Section>): (paths: seq<string>)
    ensures forall p :: p in paths <==> p != "" && exists s :: s in sections && s.headingPath == p
    ensures forall i, j | 0 <= i < j < |paths| :: paths[i] != paths[j]
  {
    if sections == [] then []
    else
      var init, last := sections[..|sections| - 1], sections[|sections| - 1];
      var paths := UniquePaths(init);
      assert sections == init + [last];
      if last.headingPath == "" || last.headingPath in paths then paths else paths + [last.headingPath]
  }

  function Packed(group: seq<Section>): ParentText {
    ParentText(Strip(Join("\n\n", Texts(group))), Join(" | ", UniquePaths(group)))
  }

  function Pieces(texts: seq<string>, headingPath: string): seq<ParentText> {
    seq(|texts|, k requires 0 <= k < |texts| => ParentText(texts[k], headingPath))
  }

  /** The parents of one group: an oversized section is split, any other group is joined. */
  function Render(group: seq<Section>, target: nat): seq<ParentText>
    requires group != [] && target > 0
  {
    if |group| == 1 && TokenCount(group[0].text) > target
    then Pieces(Split(group[0].text, target, 0), group[0].headingPath)
    else [Packed(group)]
  }

  predicate NoEmptyGroup(groups: seq<seq<Section>>) { forall k | 0 <= k < |groups| :: groups[k] != [] }

  function RenderAll(groups: seq<seq<Section>>, target: nat): seq<ParentText>
    requires NoEmptyGroup(groups) && target > 0
  {
    if groups == [] then [] else Render(groups[0], target) + RenderAll(groups[1..], target)
  }

  function ParentDraft(ordinal: nat, p: ParentText): ChunkDraft {
    ChunkDraft(ParentRef(ordinal), Parent, ordinal, p.text, TokenCount(p.text), None, p.headingPath)
  }

  /** Parent chunks numbered after the first `base` ones. */
  function NumberedAfter(base: nat, ps: seq<ParentText>): seq<ChunkDraft> {
    seq(|ps|, k requires 0 <= k < |ps| => ParentDraft(base + k + 1, ps[k]))
  }

  lemma {:induction false} GroupsNotEmpty(sections: seq<Section>, i: nat, current: seq<Section>, target: nat)
    requires i <= |sections|
    ensures NoEmptyGroup(GroupsFrom(sections, i, current, target))
    decreases |sections| - i
  {
    hide TokenCount, Weight;
    if i < |sections| {
      var s := sections[i];
      if TokenCount(s.text) > target {
        GroupsNotEmpty(sections, i + 1, [], target);
      } else if current != [] && Weight(current) + TokenCount(s.text) > target {
        GroupsNotEmpty(sections, i + 1, [s], target);
      } else {
        GroupsNotEmpty(sections, i + 1, current + [s], target);
      }
    }
  }

  function ParentTexts(sections: seq<Section>, target: nat): seq<ParentText>
    requires target > 0
  {
    GroupsNotEmpty(sections, 0, [], target);
    RenderAll(GroupsFrom(sections, 0, [], target), target)
  }

  function ParentChunks(sections: seq<Section>, target: nat): seq<ChunkDraft>
    requires target > 0
  {
    NumberedAfter(0, ParentTexts(sections, target))
  }

  lemma {:induction false} RenderAllSnoc(groups: seq<seq<Section>>, group: seq<Section>, target: nat)
    requires NoEmptyGroup(groups) && group != [] && target > 0
    ensures NoEmptyGroup(groups + [group])
    ensures RenderAll(groups + [group], target) == RenderAll(groups, target) + Render(group, target)
  {
    hide Render;
    if groups == [] {
      assert [group][1..] == [] && groups + [group] == [group];
    } else {
      var all := groups + [group];
      assert all[1..] == groups[1..] + [group] && all[0] == groups[0];
      RenderAllSnoc(groups[1..], group, target);
    }
  }

  function PackedIfAny(current: seq<Section>): seq<ParentText> {
    if current == [] then [] else [Packed(current)]
  }

  /** `parents` are the numbered parents of the groups closed so far. */
  ghost predicate Rendered(parents: seq<ChunkDraft>, closed: seq<seq<Section>>, target: nat)
    requires target > 0
  {
    && NoEmptyGroup(closed)
    && parents == NumberedAfter(0, RenderAll(closed, target))
    && |parents| == |RenderAll(closed, target)|
  }

  method FlushGroup(parents: seq<ChunkDraft>, current: seq<Section>, target: nat, ghost closed: seq<seq<Section>>)
    returns (longer: seq<ChunkDraft>)
    requires target > 0 && Rendered(parents, closed, target)
    requires |current| == 1 ==> TokenCount(current[0].text) <= target
    ensures longer == parents + NumberedAfter(|parents|, PackedIfAny(current))
    ensures Rendered(longer, closed + Close(current), target)
  {
    hide TokenCount, RenderAll;
    CloseGroup(closed, current, target);
    if current == [] {
      return parents;
    }
    var text := Strip(Join("\n\n", Texts(current)));
    var headingPath := Join(" | ", UniquePaths(current));
    longer := parents + [ChunkDraft(
                           ParentRef(|parents| + 1), Parent, |parents| + 1, text, TokenCount(text), None, headingPath)];
  }

  /** Splits an oversized section and numbers its pieces after the parents built so far. */
  method SplitSection(parents: seq<ChunkDraft>, section: Section, target: nat, ghost closed: seq<seq<Section>>)
    returns (longer: seq<ChunkDraft>)
    requires target > 0 && Rendered(parents, closed, target) && TokenCount(section.text) > target
    ensures longer == parents + NumberedAfter(|parents|, Pieces(Split(section.text, target, 0), section.headingPath))
    ensures Rendered(longer, closed + [[section]], target)
  {
    hide TokenCount, RenderAll, Split, ParentDraft, ParentRef;
    var texts := SplitTextByTokenLimit(section.text, target, 0);
    longer := parents;
    for k := 0 to |texts|
      invariant longer == parents + NumberedAfter(|parents|, Pieces(texts[..k], section.headingPath))
    {
      var n := |longer| + 1;
      var draft := ChunkDraft(ParentRef(n), Parent, n, texts[k], TokenCount(texts[k]), None, section.headingPath);
      PieceDraft(n, texts[k], section.headingPath);
      PiecesSnoc(|parents|, texts, k, section.headingPath);
      longer := longer + [draft];
    }
    assert texts[..|texts|] == texts;
    RenderOversized(closed, section, target);
  }

  lemma {:induction false} PieceDraft(n: nat, text: string, headingPath: string)
    ensures ChunkDraft(ParentRef(n), Parent, n, text, TokenCount(text), None, headingPath) ==
            ParentDraft(n, ParentText(text, headingPath))
  {}

  lemma {:induction false} PiecesSnoc(base: nat, texts: seq<string>, k: nat, headingPath: string)
    requires k < |texts|
    ensures NumberedAfter(base, Pieces(texts[..k + 1], headingPath)) ==
            NumberedAfter(base, Pieces(texts[..k], headingPath)) +
            [ParentDraft(base + k + 1, ParentText(texts[k], headingPath))]
  {
    hide ParentDraft;
    NumberedConcat(base, Pieces(texts[..k], headingPath), [ParentText(texts[k], headingPath)]);
    assert Pieces(texts[..k + 1], headingPath) == Pieces(texts[..k], headingPath) + [ParentText(texts[k], headingPath)];
  }

  lemma {:induction false} NumberedConcat(base: nat, ps: seq<ParentText>, qs: seq<ParentText>)
    ensures NumberedAfter(base, ps + qs) == NumberedAfter(base, ps) + NumberedAfter(base + |ps|, qs)
  {
    hide ParentDraft;
  }

  /** The groups closed so far, and those still to come, are the groups of the whole list. */
  ghost predicate OnTrack(sections: seq<Section>, i: nat, closed: seq<seq<Section>>, current: seq<Section>, target: nat)
    requires i <= |sections|
  {
    closed + GroupsFrom(sections, i, current, target) == GroupsFrom(sections, 0, [], target)
  }

  /** The packing loop, with the open group and its running token count. */
  method BuildParentChunks(sections: seq<Section>, target: nat) returns (parents: seq<ChunkDraft>)
    requires target > 0
    ensures parents == ParentChunks(sections, target)
  {
    hide *;
    parents := [];
    var current: seq<Section> := [];
    var currentTokens := 0;
    ghost var closed: seq<seq<Section>> := [];
    StartOfPacking(sections, target);
    for i := 0 to |sections|
      invariant Rendered(parents, closed, target)
      invariant OnTrack(sections, i, closed, current, target)
      invariant currentTokens == Weight(current)
      invariant |current| == 1 ==> TokenCount(current[0].text) <= target
    {
      var section := sections[i];
      var sectionTokens := TokenCount(section.text);
      PackingStep(sections, i, closed, current, target);
      WeightSnoc(current, section);
      if sectionTokens > target {
        parents := FlushGroup(parents, current, target, closed);
        closed := closed + Close(current);
        current, currentTokens := [], 0;
        parents := SplitSection(parents, section, target, closed);
        closed := closed + [[section]];
        continue;
      }
      if current != [] && currentTokens + sectionTokens > target {
        parents := FlushGroup(parents, current, target, closed);
        closed := closed + Close(current);
        current, currentTokens := [], 0;
        WeightSnoc(current, section);
      }
      current := current + [section];
      currentTokens := currentTokens + sectionTokens;
    }
    PackingEnd(sections, closed, current, target);
    parents := FlushGroup(parents, current, target, closed);
    closed := closed + Close(current);
  }

  lemma {:induction false} StartOfPacking(sections: seq<Section>, target: nat)
    requires target > 0
    ensures Rendered([], [], target) && Weight([]) == 0
    ensures OnTrack(sections, 0, [], [], target)
    ensures forall parents :: Rendered(parents, GroupsFrom(sections, 0, [], target), target) ==>
                                parents == ParentChunks(sections, target)
  {
    GroupsNotEmpty(sections, 0, [], target);
  }

  lemma {:induction false} PackingStep(
    sections: seq<Section>, i: nat, closed: seq<seq<Section>>, current: seq<Section>, target: nat)
    requires i < |sections| && OnTrack(sections, i, closed, current, target)
    ensures if TokenCount(sections[i].text) > target then
              OnTrack(sections, i + 1, closed + Close(current) + [[sections[i]]], [], target)
            else if current != [] && Weight(current) + TokenCount(sections[i].text) > target then
              OnTrack(sections, i + 1, closed + Close(current), [] + [sections[i]], target)
            else OnTrack(sections, i + 1, closed, current + [sections[i]], target)
    ensures Weight([]) == 0
  {
    hide TokenCount, Close;
    var s := sections[i];
    assert [] + [s] == [s];
    var rest := GroupsFrom(sections, i + 1, [], target);
    assert closed + (Close(current) + [[s]] + rest) == closed + Close(current) + [[s]] + rest;
    var rest' := GroupsFrom(sections, i + 1, [s], target);
    assert closed + (Close(current) + rest') == closed + Close(current) + rest';
  }

  lemma {:induction false} PackingEnd(
    sections: seq<Section>, closed: seq<seq<Section>>, current: seq<Section>, target: nat)
    requires OnTrack(sections, |sections|, closed, current, target)
    ensures closed + Close(current) == GroupsFrom(sections, 0, [], target)
  {}

  lemma {:induction false} WeightSnoc(group: seq<Section>, s: Section)
    ensures Weight(group + [s]) == Weight(group) + TokenCount(s.text)
  {
    TextsConcat(group, [s]);
    TokensAllConcat(Texts(group), Texts([s]));
    assert Texts([s]) == [s.text] + Texts([s][1..]);
    TokensAllCons(s.text, []);
  }

  lemma {:induction false} CloseGroup(closed: seq<seq<Section>>, current: seq<Section>, target: nat)
    requires NoEmptyGroup(closed) && target > 0
    requires |current| == 1 ==> TokenCount(current[0].text) <= target
    ensures NoEmptyGroup(closed + Close(current))
    ensures RenderAll(closed + Close(current), target) == RenderAll(closed, target) + PackedIfAny(current)
    ensures NumberedAfter(0, RenderAll(closed + Close(current), target)) ==
            NumberedAfter(0, RenderAll(closed, target)) +
            NumberedAfter(|RenderAll(closed, target)|, PackedIfAny(current))
    ensures |NumberedAfter(|RenderAll(closed, target)|, PackedIfAny(current))| == |PackedIfAny(current)|
  {
    hide TokenCount, Packed, ParentDraft, RenderAll, Split;
    NumberedConcat(0, RenderAll(closed, target), PackedIfAny(current));
    if current != [] {
      RenderAllSnoc(closed, current, target);
    } else {
      assert closed + Close(current) == closed;
      assert RenderAll(closed, target) + [] == RenderAll(closed, target);
    }
  }

  lemma {:induction false} RenderOversized(closed: seq<seq<Section>>, s: Section, target: nat)
    requires NoEmptyGroup(closed) && target > 0 && TokenCount(s.text) > target
    ensures NoEmptyGroup(closed + [[s]])
    ensures RenderAll(closed + [[s]], target) ==
            RenderAll(closed, target) + Pieces(Split(s.text, target, 0), s.headingPath)
    ensures NumberedAfter(0, RenderAll(closed + [[s]], target)) ==
            NumberedAfter(0, RenderAll(closed, target)) +
            NumberedAfter(|RenderAll(closed, target)|, Pieces(Split(s.text, target, 0), s.headingPath))
    ensures |NumberedAfter(|RenderAll(closed, target)|, Pieces(Split(s.text, target, 0), s.headingPath))|
         == |Pieces(Split(s.text, target, 0), s.headingPath)|
  {
    hide TokenCount, Packed, ParentDraft, RenderAll, Split;
    RenderAllSnoc(closed, [s], target);
    NumberedConcat(0, RenderAll(closed, target), Pieces(Split(s.text, target, 0), s.headingPath));
  }

  // --- Windowing parents into children --------------------------------------

  function ChildDraft(ordinal: nat, parent: ChunkDraft, index: nat, text: string): ChunkDraft {
    ChunkDraft(
      ChildRef(parent.ordinal, index), Child, ordinal, text, TokenCount(text), Some(parent.ref), parent.headingPath)
  }

  function ChildTexts(parent: ChunkDraft, config: Config): seq<string>
    requires config.Valid()
  {
    Split(parent.text, config.childTarget, config.childOverlap)
  }

  function ChildrenOf(parent: ChunkDraft, texts: seq<string>, base: nat): seq<ChunkDraft> {
    seq(|texts|, k requires 0 <= k < |texts| => ChildDraft(base + k, parent, k + 1, texts[k]))
  }

  /** The children of parents `p..`, the first of them with ordinal `base`. */
  function ChildrenFrom(parents: seq<ChunkDraft>, p: nat, base: nat, config: Config): seq<ChunkDraft>
    requires config.Valid() && p <= |parents|
    decreases |parents| - p
  {
    if p == |parents| then []
    else
      var texts := ChildTexts(parents[p], config);
      ChildrenOf(parents[p], texts, base) + ChildrenFrom(parents, p + 1, base + |texts|, config)
  }

  function SectionsOf(normalized: string, markdown: bool): seq<Section> {
    var sections := if markdown then Sections(normalized) else [];
    if sections == [] then [Section(normalized, "")] else sections
  }

  function Pipeline(content: string, markdown: bool, config: Config): PipelineResult
    requires config.Valid()
  {
    var normalized := Normalize(content);
    if normalized == "" then EmptyDocument
    else
      var parents := ParentChunks(SectionsOf(normalized, markdown), config.parentTarget);
      Chunked(normalized, parents + ChildrenFrom(parents, 0, |parents| + 1, config))
  }

  method BuildChunks(content: string, markdown: bool, config: Config) returns (result: PipelineResult)
    requires config.Valid()
    ensures result == Pipeline(content, markdown, config)
  {
    hide Normalize, Sections, ParentChunks, Split, ChildDraft, ChildTexts, TokenCount;
    var normalized := Normalize(content);
    if normalized == "" {
      return EmptyDocument;
    }
    var sections: seq<Section> := [];
    if markdown {
      sections := ExtractMarkdownSections(normalized);
    }
    if sections == [] {
      sections := [Section(normalized, "")];
    }
    var parents := BuildParentChunks(sections, config.parentTarget);
    var children := BuildChildren(parents, config);
    result := Chunked(normalized, parents + children);
  }

  /** The child loops of the pipeline, with their running ordinal. */
  method BuildChildren(parents: seq<ChunkDraft>, config: Config) returns (children: seq<ChunkDraft>)
    requires config.Valid()
    ensures children == ChildrenFrom(parents, 0, |parents| + 1, config)
  {
    hide Split, ChildDraft, TokenCount, ChildrenOf;
    children := [];
    var childOrdinal: nat := |parents| + 1;
    for p := 0 to |parents|
      invariant children + ChildrenFrom(parents, p, childOrdinal, config) ==
                ChildrenFrom(parents, 0, |parents| + 1, config)
    {
      var kids := BuildChildrenOf(parents[p], childOrdinal, config);
      children := children + kids;
      childOrdinal := childOrdinal + |kids|;
    }
  }

  method BuildChildrenOf(parent: ChunkDraft, base: nat, config: Config) returns (kids: seq<ChunkDraft>)
    requires config.Valid()
    ensures kids == ChildrenOf(parent, ChildTexts(parent, config), base)
    ensures |kids| == |ChildTexts(parent, config)|
  {
    hide Split, ChildDraft, TokenCount;
    var texts := SplitTextByTokenLimit(parent.text, config.childTarget, config.childOverlap);
    kids := [];
    for k := 0 to |texts|
      invariant kids == ChildrenOf(parent, texts, base)[..k]
    {
      KidDraft(base + k, parent, k + 1, texts[k]);
      kids := kids + [ChunkDraft(
                        ChildRef(parent.ordinal, k + 1), Child, base + k, texts[k], TokenCount(texts[k]),
                        Some(parent.ref), parent.headingPath)];
    }
  }

  lemma {:induction false} KidDraft(ordinal: nat, parent: ChunkDraft, index: nat, text: string)
    ensures ChunkDraft(ChildRef(parent.ordinal, index), Child, ordinal, text, TokenCount(text),
                       Some(parent.ref), parent.headingPath) == ChildDraft(ordinal, parent, index, text)
  {}
}
