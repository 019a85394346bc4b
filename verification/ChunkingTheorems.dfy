/** What the whole chunking pipeline keeps: tokens, budgets, order and identity. */
module ChunkingTheorems {
  import opened Common
  import opened Characters
  import opened Tokenizer
  import opened Normalization
  import opened MarkdownSections
  import opened TokenWindows
  import opened ChunkRefs
  import opened Chunking

  // --- Packing is the only greedy packing -----------------------------------

  function Flatten(groups: seq<seq<Section>>): seq<Section> {
    if groups == [] then [] else groups[0] + Flatten(groups[1..])
  }

  /** No group but a single section exceeds the budget, and no group could have taken the next group's first section. */
  predicate IsGreedy(groups: seq<seq<Section>>, target: nat) {
    && NoEmptyGroup(groups)
    && (forall k | 0 <= k < |groups| :: |groups[k]| == 1 || Weight(groups[k]) <= target)
    && (forall k: nat | k + 1 < |groups| :: Overflows(groups, k, target))
  }

  predicate Overflows(groups: seq<seq<Section>>, k: nat, target: nat)
    requires k + 1 < |groups| && NoEmptyGroup(groups)
  {
    Weight(groups[k]) + TokenCount(groups[k + 1][0].text) > target
  }

  lemma {:induction false} GreedyCons(group: seq<Section>, rest: seq<seq<Section>>, target: nat)
    requires group != [] && (|group| == 1 || Weight(group) <= target)
    requires IsGreedy(rest, target)
    requires rest != [] ==> Weight(group) + TokenCount(rest[0][0].text) > target
    ensures IsGreedy([group] + rest, target)
    ensures Flatten([group] + rest) == group + Flatten(rest)
  {
    hide Weight, TokenCount;
    var all := [group] + rest;
    assert all[1..] == rest;
    forall k: nat | k + 1 < |all|
      ensures Overflows(all, k, target)
    {
      if k > 0 {
        assert Overflows(rest, k - 1, target);
      }
    }
  }

  lemma {:induction false} WeightOfOne(s: Section)
    ensures Weight([s]) == TokenCount(s.text)
  {
    WeightSnoc([], s);
    assert [] + [s] == [s];
    assert Weight([]) == 0;
  }

  lemma {:induction false} CloseGreedy(current: seq<Section>, rest: seq<seq<Section>>, target: nat)
    requires Weight(current) <= target && IsGreedy(rest, target)
    requires current != [] && rest != [] ==> Weight(current) + TokenCount(rest[0][0].text) > target
    ensures IsGreedy(Close(current) + rest, target)
    ensures Flatten(Close(current) + rest) == current + Flatten(rest)
    ensures current != [] ==> (Close(current) + rest)[0][0] == current[0]
  {
    hide Weight, TokenCount, IsGreedy, Flatten;
    if current != [] {
      GreedyCons(current, rest, target);
    } else {
      assert Close(current) + rest == rest;
    }
  }

  /** The packing loop groups consecutive sections greedily and loses none. */
  lemma {:induction false} GroupsAreGreedy(sections: seq<Section>, i: nat, current: seq<Section>, target: nat)
    requires i <= |sections| && Weight(current) <= target
    ensures IsGreedy(GroupsFrom(sections, i, current, target), target)
    ensures Flatten(GroupsFrom(sections, i, current, target)) == current + sections[i..]
    ensures current != [] ==> GroupsFrom(sections, i, current, target) != []
                              && GroupsFrom(sections, i, current, target)[0] != []
                              && GroupsFrom(sections, i, current, target)[0][0] == current[0]
    decreases |sections| - i
  {
    hide Weight, TokenCount, IsGreedy, Flatten, Close;
    NothingGreedy(target);
    if i == |sections| {
      CloseGreedy(current, [], target);
      assert Close(current) + [] == Close(current);
      CloseHead(current);
    } else {
      var s := sections[i];
      WeightOfOne(s);
      WeightSnoc(current, s);
      CloseHead(current);
      assert sections[i..] == [s] + sections[i + 1..];
      if TokenCount(s.text) > target {
        var rest := GroupsFrom(sections, i + 1, [], target);
        GroupsAreGreedy(sections, i + 1, [], target);
        GreedyCons([s], rest, target);
        CloseGreedy(current, [[s]] + rest, target);
        assert Close(current) + [[s]] + rest == Close(current) + ([[s]] + rest);
      } else if current != [] && Weight(current) + TokenCount(s.text) > target {
        GroupsAreGreedy(sections, i + 1, [s], target);
        CloseGreedy(current, GroupsFrom(sections, i + 1, [s], target), target);
      } else {
        assert current == [] ==> Weight(current + [s]) == TokenCount(s.text);
        GroupsAreGreedy(sections, i + 1, current + [s], target);
      }
    }
  }

  lemma {:induction false} CloseHead(current: seq<Section>)
    ensures current != [] ==> Close(current) == [current]
  {}

  lemma {:induction false} NothingGreedy(target: nat)
    ensures IsGreedy([], target) && Flatten([]) == [] && Weight([]) == 0
  {}

  lemma {:induction false} EmptyWeight()
    ensures Weight([]) == 0
  {}

  lemma {:induction false} WeightPrefix(group: seq<Section>, n: nat)
    requires n < |group|
    ensures Weight(group[..n]) + TokenCount(group[n].text) <= Weight(group)
  {
    WeightSnoc(group[..n], group[n]);
    assert group == group[..n + 1] + group[n + 1..] && group[..n + 1] == group[..n] + [group[n]];
    TextsConcat(group[..n + 1], group[n + 1..]);
    TokensAllConcat(Texts(group[..n + 1]), Texts(group[n + 1..]));
  }

  lemma {:induction false} HeadMaximal(groups: seq<seq<Section>>, target: nat)
    requires IsGreedy(groups, target) && groups != []
    ensures groups[0] <= Flatten(groups)
    ensures |groups[0]| < |Flatten(groups)| ==>
              Weight(groups[0]) + TokenCount(Flatten(groups)[|groups[0]|].text) > target
  {
    hide Weight, TokenCount;
    var g, rest := groups[0], groups[1..];
    if |g| < |Flatten(groups)| {
      assert rest == [] ==> Flatten(rest) == [];
      assert Flatten(rest)[0] == rest[0][0] && rest[0] == groups[1];
      assert Overflows(groups, 0, target);
    }
  }

  lemma {:induction false} HeadNotShorter(
    groups: seq<seq<Section>>, others: seq<seq<Section>>, target: nat)
    requires IsGreedy(groups, target) && IsGreedy(others, target) && Flatten(groups) == Flatten(others)
    requires groups != [] && others != []
    ensures |groups[0]| >= |others[0]|
  {
    hide Weight, TokenCount, Flatten;
    HeadMaximal(groups, target);
    HeadMaximal(others, target);
    var h, n := others[0], |groups[0]|;
    if n < |h| {
      assert h[..n] == groups[0];
      WeightPrefix(h, n);
    }
  }

  lemma {:induction false} NoGroups(groups: seq<seq<Section>>)
    requires NoEmptyGroup(groups)
    ensures Flatten(groups) == [] <==> groups == []
  {}

  /** Greedy packing is determined by the sections: any greedy grouping of them is the one the loop computes. */
  lemma {:induction false} GreedyUnique(groups: seq<seq<Section>>, others: seq<seq<Section>>, target: nat)
    requires IsGreedy(groups, target) && IsGreedy(others, target) && Flatten(groups) == Flatten(others)
    ensures groups == others
    decreases |groups|
  {
    hide Weight, TokenCount;
    NoGroups(groups);
    NoGroups(others);
    if groups != [] {
      HeadNotShorter(groups, others, target);
      HeadNotShorter(others, groups, target);
      var n, all := |groups[0]|, Flatten(groups);
      assert groups[0] == all[..n] == others[0];
      assert Flatten(groups[1..]) == all[n..] == Flatten(others[1..]);
      GreedyTail(groups, target);
      GreedyTail(others, target);
      GreedyUnique(groups[1..], others[1..], target);
      assert groups == [groups[0]] + groups[1..] && others == [others[0]] + others[1..];
    }
  }

  lemma {:induction false} GreedyTail(groups: seq<seq<Section>>, target: nat)
    requires IsGreedy(groups, target) && groups != []
    ensures IsGreedy(groups[1..], target)
  {
    hide Weight, TokenCount;
    var tail := groups[1..];
    forall k: nat | k + 1 < |tail|
      ensures Overflows(tail, k, target)
    {
      assert Overflows(groups, k + 1, target);
    }
  }

  // --- Token conservation and budgets ---------------------------------------

  function TextsOf(ps: seq<ParentText>): seq<string> {
    if ps == [] then [] else [ps[0].text] + TextsOf(ps[1..])
  }

  function DraftTexts(chunks: seq<ChunkDraft>): seq<string> {
    seq(|chunks|, k requires 0 <= k < |chunks| => chunks[k].text)
  }

  lemma {:induction false} TextsOfConcat(a: seq<ParentText>, b: seq<ParentText>)
    ensures TextsOf(a + b) == TextsOf(a) + TextsOf(b)
  {
    if a == [] {
      assert a + b == b;
    } else {
      assert (a + b)[1..] == a[1..] + b;
      TextsOfConcat(a[1..], b);
    }
  }

  lemma {:induction false} TextsOfPieces(texts: seq<string>, headingPath: string)
    ensures TextsOf(Pieces(texts, headingPath)) == texts
  {
    if texts != [] {
      assert Pieces(texts, headingPath)[1..] == Pieces(texts[1..], headingPath);
      TextsOfPieces(texts[1..], headingPath);
    }
  }

  lemma NewlinesAreSpace()
    ensures AllSpace("\n\n")
  {}

  lemma {:induction false} PackedTokens(group: seq<Section>)
    ensures Tokens(Packed(group).text) == TokensAll(Texts(group))
  {
    hide Tokens, TokensAll, Texts, Join, Strip, AllSpace, UniquePaths;
    NewlinesAreSpace();
    TokensOfStrip(Join("\n\n", Texts(group)));
    TokensOfJoin("\n\n", Texts(group));
  }

  lemma {:induction false} TextsOfOne(s: Section)
    ensures TokensAll(Texts([s])) == Tokens(s.text)
  {
    assert Texts([s]) == [s.text] + Texts([s][1..]);
    TokensAllCons(s.text, []);
  }

  lemma {:induction false} RenderTokens(group: seq<Section>, target: nat)
    requires group != [] && target > 0
    ensures TokensAll(TextsOf(Render(group, target))) == TokensAll(Texts(group))
  {
    hide Split, Packed, Tokens;
    if |group| == 1 && TokenCount(group[0].text) > target {
      SplitKeepsTokens(group[0].text, target);
      TextsOfPieces(Split(group[0].text, target, 0), group[0].headingPath);
      TextsOfOne(group[0]);
      assert group == [group[0]];
    } else {
      PackedTokens(group);
      assert TextsOf([Packed(group)]) == [Packed(group).text] + TextsOf([Packed(group)][1..]);
      TokensAllCons(Packed(group).text, []);
    }
  }

  lemma {:induction false} RenderAllTokens(groups: seq<seq<Section>>, target: nat)
    requires NoEmptyGroup(groups) && target > 0
    ensures TokensAll(TextsOf(RenderAll(groups, target))) == TokensAll(Texts(Flatten(groups)))
  {
    hide Render;
    if groups != [] {
      var g, rest := groups[0], groups[1..];
      RenderAllTokens(rest, target);
      RenderTokens(g, target);
      TextsOfConcat(Render(g, target), RenderAll(rest, target));
      TokensAllConcat(TextsOf(Render(g, target)), TextsOf(RenderAll(rest, target)));
      TextsConcat(g, Flatten(rest));
      TokensAllConcat(Texts(g), Texts(Flatten(rest)));
    }
  }

  lemma {:induction false} ParentTextsTokens(sections: seq<Section>, target: nat)
    requires target > 0
    ensures TokensAll(TextsOf(ParentTexts(sections, target))) == TokensAll(Texts(sections))
  {
    hide RenderAll, Weight, TokenCount;
    EmptyWeight();
    GroupsAreGreedy(sections, 0, [], target);
    RenderAllTokens(GroupsFrom(sections, 0, [], target), target);
    assert [] + sections[0..] == sections;
  }

  lemma {:induction false} DraftTextsOfParents(base: nat, ps: seq<ParentText>)
    ensures DraftTexts(NumberedAfter(base, ps)) == TextsOf(ps)
    decreases |ps|
  {
    hide TokenCount, ParentRef;
    if ps != [] {
      DraftTextsOfParents(base + 1, ps[1..]);
      var drafts, tail := NumberedAfter(base, ps), NumberedAfter(base + 1, ps[1..]);
      assert forall k | 0 < k < |drafts| :: drafts[k].text == tail[k - 1].text;
      assert DraftTexts(drafts) == [ps[0].text] + DraftTexts(tail);
    }
  }

  predicate NoBlankSection(sections: seq<Section>) {
    forall k | 0 <= k < |sections| :: TokenCount(sections[k].text) > 0
  }

  predicate WithinBudget(ps: seq<ParentText>, target: nat) {
    forall k | 0 <= k < |ps| :: 0 < TokenCount(ps[k].text) <= target
  }

  lemma {:induction false} PiecesBudget(text: string, target: nat, headingPath: string)
    requires target > 0 && TokenCount(text) > 0
    ensures WithinBudget(Pieces(Split(text, target, 0), headingPath), target)
  {
    hide Split, Tokens;
    SplitPieces(text, target, 0);
    var pieces := Split(text, target, 0);
    forall k: nat | k < |pieces|
      ensures 0 < TokenCount(pieces[k]) <= target
    {
      assert IsPiece(text, target, 0, k, pieces[k]);
    }
  }

  lemma {:induction false} PackedWeight(group: seq<Section>)
    ensures TokenCount(Packed(group).text) == Weight(group)
  {
    PackedTokens(group);
  }

  lemma {:induction false} RenderBudget(group: seq<Section>, target: nat)
    requires group != [] && target > 0 && NoBlankSection(group)
    requires |group| == 1 || Weight(group) <= target
    ensures WithinBudget(Render(group, target), target)
  {
    hide TokenCount, Weight, Split, Packed;
    WeightPrefix(group, 0);
    WeightOfOne(group[0]);
    PackedWeight(group);
    assert |group| == 1 ==> group == [group[0]];
    PiecesBudget(group[0].text, target, group[0].headingPath);
  }

  lemma NoBlankHalves(a: seq<Section>, b: seq<Section>)
    requires NoBlankSection(a + b)
    ensures NoBlankSection(a) && NoBlankSection(b)
  {
    hide TokenCount;
    assert forall k | 0 <= k < |a| :: (a + b)[k] == a[k];
    assert forall k | 0 <= k < |b| :: (a + b)[|a| + k] == b[k];
  }

  lemma {:induction false} RenderAllBudget(groups: seq<seq<Section>>, target: nat)
    requires IsGreedy(groups, target) && target > 0 && NoBlankSection(Flatten(groups))
    ensures WithinBudget(RenderAll(groups, target), target)
  {
    hide Render, Weight, TokenCount;
    if groups != [] {
      var g, rest := groups[0], groups[1..];
      NoBlankHalves(g, Flatten(rest));
      hide NoBlankSection, IsGreedy;
      RenderBudget(g, target);
      GreedyTail(groups, target);
      RenderAllBudget(rest, target);
    }
  }

  lemma {:induction false} FlushNotBlank(lines: seq<string>, stack: seq<Heading>)
    ensures NoBlankSection(Flush(lines, stack))
  {
    var text := Strip(Join("\n", lines));
    if text != "" {
      assert !AllSpace(text) by { assert !IsSpace(text[0]); }
      TokensOfSpace(text);
    }
  }

  lemma {:induction false} SectionsNotBlank(lines: seq<string>, i: nat, current: seq<string>, stack: seq<Heading>)
    requires i <= |lines|
    ensures NoBlankSection(SectionsFrom(lines, i, current, stack))
    decreases |lines| - i
  {
    hide Flush, ParseHeading, Push, TokenCount;
    FlushNotBlank(current, stack);
    if i < |lines| {
      match ParseHeading(lines[i]) {
        case Some(h) => SectionsNotBlank(lines, i + 1, [lines[i]], Push(stack, h));
        case None => SectionsNotBlank(lines, i + 1, current + [lines[i]], stack);
      }
    }
  }

  lemma {:induction false} NormalHasTokens(content: string)
    ensures Normalize(content) == "" <==> AllSpace(content)
    ensures Normalize(content) != "" ==> TokenCount(Normalize(content)) > 0
  {
    hide Normalize;
    NormalizeKeepsTokens(content);
    NormalizeIsNormal(content);
    TokensOfSpace(content);
    TokensOfSpace(Normalize(content));
    var n := Normalize(content);
    if n != "" {
      assert !AllSpace(n) by { assert !IsSpace(n[0]); }
    }
  }

  lemma {:induction false} SectionsOfDocument(content: string, markdown: bool)
    requires Normalize(content) != ""
    ensures NoBlankSection(SectionsOf(Normalize(content), markdown))
    ensures TokensAll(Texts(SectionsOf(Normalize(content), markdown))) == Tokens(content)
  {
    hide Normalize, Tokens, Sections;
    var n := Normalize(content);
    NormalHasTokens(content);
    NormalizeKeepsTokens(content);
    TextsOfOne(Section(n, ""));
    if markdown {
      SectionsKeepTokens(n);
      DocumentSectionsNotBlank(n);
    }
  }

  lemma {:induction false} DocumentSectionsNotBlank(text: string)
    ensures NoBlankSection(Sections(text))
  {
    hide TokenCount;
    SectionsNotBlank(Lines(text), 0, [], []);
  }

  function Parents(content: string, markdown: bool, config: Config): seq<ChunkDraft>
    requires config.Valid()
  {
    ParentChunks(SectionsOf(Normalize(content), markdown), config.parentTarget)
  }

  /** Token conservation end to end: the parents of a document, in order, have exactly the tokens of the raw content. */
  lemma {:induction false} ParentsConserveTokens(content: string, markdown: bool, config: Config)
    requires config.Valid() && Normalize(content) != ""
    ensures TokensAll(DraftTexts(Parents(content, markdown, config))) == Tokens(content)
  {
    hide Normalize, SectionsOf, ParentTexts, Tokens, TokensAll;
    var sections := SectionsOf(Normalize(content), markdown);
    SectionsOfDocument(content, markdown);
    ParentTextsTokens(sections, config.parentTarget);
    DraftTextsOfParents(0, ParentTexts(sections, config.parentTarget));
  }

  /** Every parent records its token count, which is positive and within the parent budget. */
  lemma {:induction false} ParentsWithinBudget(content: string, markdown: bool, config: Config, k: nat)
    requires config.Valid() && Normalize(content) != "" && k < |Parents(content, markdown, config)|
    ensures var p := Parents(content, markdown, config)[k];
            && p.tokenCount == TokenCount(p.text) && 0 < p.tokenCount <= config.parentTarget
            && p.ordinal == k + 1 && p.ref == ParentRef(k + 1) && p.kind == Parent && p.parentRef == None
  {
    hide Normalize, SectionsOf, TokenCount, RenderAll, ParentRef, Weight;
    var sections, target := SectionsOf(Normalize(content), markdown), config.parentTarget;
    SectionsOfDocument(content, markdown);
    EmptyWeight();
    GroupsAreGreedy(sections, 0, [], target);
    assert [] + sections[0..] == sections;
    RenderAllBudget(GroupsFrom(sections, 0, [], target), target);
  }

  // --- Children -------------------------------------------------------------

  /** How many children parents `p..j` have. */
  function ChildrenBefore(parents: seq<ChunkDraft>, p: nat, j: nat, config: Config): nat
    requires config.Valid() && p <= j <= |parents|
    decreases j - p
  {
    if p == j then 0 else |ChildTexts(parents[p], config)| + ChildrenBefore(parents, p + 1, j, config)
  }

  /** Child `k` of the list is piece `index` of parent `j`, and `k` is where that piece belongs. */
  lemma {:induction false} ChildProvenance(parents: seq<ChunkDraft>, p: nat, base: nat, config: Config, k: nat)
    returns (j: nat, index: nat)
    requires config.Valid() && p <= |parents| && k < |ChildrenFrom(parents, p, base, config)|
    ensures p <= j < |parents| && index < |ChildTexts(parents[j], config)|
    ensures ChildrenFrom(parents, p, base, config)[k] ==
            ChildDraft(base + k, parents[j], index + 1, ChildTexts(parents[j], config)[index])
    ensures k == ChildrenBefore(parents, p, j, config) + index
    decreases |parents| - p
  {
    hide ChildTexts, ChildDraft;
    var texts := ChildTexts(parents[p], config);
    if k < |texts| {
      j, index := p, k;
    } else {
      j, index := ChildProvenance(parents, p + 1, base + |texts|, config, k - |texts|);
    }
  }

  /** Every child is a window of its parent's tokens: window `index` of `childTarget` tokens, `childOverlap` apart
      from full steps. */
  lemma {:induction false} ChildIsWindow(content: string, markdown: bool, config: Config, j: nat, index: nat)
    requires config.Valid() && Normalize(content) != ""
    requires j < |Parents(content, markdown, config)|
    requires index < |ChildTexts(Parents(content, markdown, config)[j], config)|
    ensures var p := Parents(content, markdown, config)[j];
            && IsPiece(p.text, config.childTarget, config.childOverlap, index, ChildTexts(p, config)[index])
            && 0 < TokenCount(ChildTexts(p, config)[index]) <= config.childTarget
            && |ChildTexts(p, config)| == WindowCount(p.tokenCount, config.childTarget, config.childOverlap)
  {
    hide Normalize, Parents, Split, Tokens;
    ParentsWithinBudget(content, markdown, config, j);
    var p := Parents(content, markdown, config)[j];
    SplitPieces(p.text, config.childTarget, config.childOverlap);
  }

  // --- Every token reaches a child -----------------------------------------------

  /** Which text of a list holds token `t` of the whole, and where. */
  lemma {:induction false} TokenInText(texts: seq<string>, t: nat) returns (j: nat, r: nat)
    requires t < |TokensAll(texts)|
    ensures j < |texts| && r < |Tokens(texts[j])|
    ensures Tokens(texts[j])[r] == TokensAll(texts)[t]
    ensures t == |TokensAll(texts[..j])| + r
  {
    hide Tokens;
    var n := |Tokens(texts[0])|;
    if t < n {
      j, r := 0, t;
      assert TokensAll(texts[..0]) == [];
    } else {
      j, r := TokenInText(texts[1..], t - n);
      assert texts[..j + 1][1..] == texts[1..][..j];
      j := j + 1;
    }
  }

  /** Piece `index` of parent `j` is the child that comes after all earlier pieces. */
  lemma {:induction false} ChildAt(parents: seq<ChunkDraft>, p: nat, base: nat, config: Config, j: nat, index: nat)
    requires config.Valid() && p <= j < |parents| && index < |ChildTexts(parents[j], config)|
    ensures var k := ChildrenBefore(parents, p, j, config) + index;
            && k < |ChildrenFrom(parents, p, base, config)|
            && ChildrenFrom(parents, p, base, config)[k] ==
               ChildDraft(base + k, parents[j], index + 1, ChildTexts(parents[j], config)[index])
    decreases j - p
  {
    hide ChildTexts, ChildDraft;
    if p < j {
      ChildAt(parents, p + 1, base + |ChildTexts(parents[p], config)|, config, j, index);
    }
  }

  lemma {:induction false} DraftTextAt(chunks: seq<ChunkDraft>, j: nat)
    requires j < |chunks|
    ensures |DraftTexts(chunks)| == |chunks| && DraftTexts(chunks)[j] == chunks[j].text
  {
    if j > 0 {
      DraftTextAt(chunks[1..], j - 1);
    } else if |chunks| > 1 {
      DraftTextAt(chunks[1..], 0);
    }
  }

  lemma {:induction false} DraftTextsLength(chunks: seq<ChunkDraft>)
    ensures |DraftTexts(chunks)| == |chunks|
  {
    if chunks != [] {
      DraftTextAt(chunks, 0);
    }
  }

  /** No token is lost on the way to the children: token `t` of the raw content is token `o` of some child, at the
      place that the tokens of the earlier parents and the child's window give it. */
  lemma {:induction false} TokenReachesChild(content: string, markdown: bool, config: Config, t: nat)
    returns (i: nat, j: nat, index: nat, o: nat)
    requires config.Valid() && t < |Tokens(content)|
    ensures Pipeline(content, markdown, config).Chunked?
    ensures var chunks, parents := Pipeline(content, markdown, config).chunks, Parents(content, markdown, config);
            && i < |chunks| && chunks[i].kind == Child && o < |Tokens(chunks[i].text)|
            && Tokens(chunks[i].text)[o] == Tokens(content)[t]
            && j < |parents| && chunks[i].parentRef == Some(parents[j].ref)
            && t == |TokensAll(DraftTexts(parents)[..j])| + Offset(index, Step(config.childTarget, config.childOverlap))
               + o
  {
    hide Normalize, Split, Tokens, Parents, Pipeline, ChildrenFrom, ParentRef, ChildRef, TokensAll, DraftTexts;
    TokensMeanChunks(content, markdown, config, t);
    PipelineChunks(content, markdown, config);
    ParentsConserveTokens(content, markdown, config);
    var parents := Parents(content, markdown, config);
    DraftTextsLength(parents);
    var r;
    j, r := TokenInText(DraftTexts(parents), t);
    DraftTextAt(parents, j);
    index := TokenInPiece(parents[j].text, config.childTarget, config.childOverlap, r);
    ChildAt(parents, 0, |parents| + 1, config, j, index);
    i := |parents| + ChildrenBefore(parents, 0, j, config) + index;
    o := r - Offset(index, Step(config.childTarget, config.childOverlap));
    hide ChildrenBefore, Offset, Step;
  }

  lemma {:induction false} TokensMeanChunks(content: string, markdown: bool, config: Config, t: nat)
    requires config.Valid() && t < |Tokens(content)|
    ensures Pipeline(content, markdown, config).Chunked? && Normalize(content) != ""
  {
    hide Pipeline, Tokens;
    EmptyIffBlank(content, markdown, config);
    TokensOfSpace(content);
    PipelineEmptyIff(content, markdown, config);
  }

  lemma PipelineEmptyIff(content: string, markdown: bool, config: Config)
    requires config.Valid()
    ensures Pipeline(content, markdown, config).EmptyDocument? <==> Normalize(content) == ""
  {
    hide Normalize, ParentChunks;
  }

  // --- Identity of chunks ---------------------------------------------------

  /** Chunk `i` of a result whose first `parentCount` chunks are its parents. */
  predicate ChunkShape(chunks: seq<ChunkDraft>, parentCount: nat, i: nat)
    requires i < |chunks| && parentCount <= |chunks|
  {
    && chunks[i].ordinal == i + 1
    && (i < parentCount ==> chunks[i].kind == Parent && chunks[i].parentRef == None)
    && (i >= parentCount ==>
          chunks[i].kind == Child
          && exists j: nat :: j < parentCount && chunks[i].parentRef == Some(chunks[j].ref))
  }

  lemma {:induction false} PipelineChunks(content: string, markdown: bool, config: Config)
    requires config.Valid() && Pipeline(content, markdown, config).Chunked?
    ensures Normalize(content) != ""
    ensures var parents := Parents(content, markdown, config);
            Pipeline(content, markdown, config) ==
            Chunked(Normalize(content), parents + ChildrenFrom(parents, 0, |parents| + 1, config))
  {}

  /** Ordinals count from 1 in output order, parents first, and each child names a parent of the same result. */
  lemma {:induction false} OrdinalsAndParents(
    content: string, markdown: bool, config: Config, parents: seq<ChunkDraft>, chunks: seq<ChunkDraft>, i: nat)
    requires config.Valid() && Pipeline(content, markdown, config).Chunked?
    requires chunks == Pipeline(content, markdown, config).chunks && parents == Parents(content, markdown, config)
    requires i < |chunks|
    ensures |parents| <= |chunks| && ChunkShape(chunks, |parents|, i)
  {
    hide Pipeline, Normalize, Parents, ChildrenFrom, ChildTexts, TokenCount, ParentRef, ChildRef, ChildrenBefore;
    PipelineChunks(content, markdown, config);
    var n := |parents|;
    if i < n {
      ParentsWithinBudget(content, markdown, config, i);
    } else {
      var j, index := ChildProvenance(parents, 0, n + 1, config, i - n);
      assert chunks[j].ref == parents[j].ref;
    }
  }

  /** The parent number and child number that the reference of chunk `i` spells; 0 for the child number of a parent. */
  lemma {:induction false} RefSpells(
    content: string, markdown: bool, config: Config, parents: seq<ChunkDraft>, chunks: seq<ChunkDraft>, i: nat)
    returns (j: nat, index: nat)
    requires config.Valid() && Pipeline(content, markdown, config).Chunked?
    requires chunks == Pipeline(content, markdown, config).chunks && parents == Parents(content, markdown, config)
    requires i < |chunks|
    ensures i < |parents| ==> j == i && chunks[i].ref == ParentRef(i + 1)
    ensures i >= |parents| ==>
              && j < |parents| && chunks[i].ref == ChildRef(j + 1, index + 1)
              && i - |parents| == ChildrenBefore(parents, 0, j, config) + index
  {
    hide Pipeline, Normalize, Parents, ChildrenFrom, ChildTexts, TokenCount, ParentRef, ChildRef, ChildrenBefore;
    PipelineChunks(content, markdown, config);
    var n := |parents|;
    j, index := i, 0;
    if i < n {
      ParentsWithinBudget(content, markdown, config, i);
    } else {
      j, index := ChildProvenance(parents, 0, n + 1, config, i - n);
      ParentsWithinBudget(content, markdown, config, j);
    }
  }

  /** No two chunks of a document share a reference. */
  lemma {:induction false} RefsDistinct(content: string, markdown: bool, config: Config, i: nat, k: nat)
    requires config.Valid() && Pipeline(content, markdown, config).Chunked?
    requires i < k < |Pipeline(content, markdown, config).chunks|
    ensures Pipeline(content, markdown, config).chunks[i].ref != Pipeline(content, markdown, config).chunks[k].ref
  {
    hide *;
    var parents, chunks := Parents(content, markdown, config), Pipeline(content, markdown, config).chunks;
    var j, index := RefSpells(content, markdown, config, parents, chunks, i);
    var j', index' := RefSpells(content, markdown, config, parents, chunks, k);
    RefsInjective(j + 1, index + 1, j' + 1, index' + 1);
  }

  /** A document is rejected exactly when it is blank. */
  lemma {:induction false} EmptyIffBlank(content: string, markdown: bool, config: Config)
    requires config.Valid()
    ensures Pipeline(content, markdown, config).EmptyDocument? <==> AllSpace(content)
  {
    NormalHasTokens(content);
  }

  /** Chunking sees only the normalized text: equal normalized texts give equal results, in particular re-chunking
      the normalized text. */
  lemma {:induction false} PipelineOfNormalized(content: string, markdown: bool, config: Config)
    requires config.Valid()
    ensures Pipeline(Normalize(content), markdown, config) == Pipeline(content, markdown, config)
  {
    hide Normalize, ParentChunks, SectionsOf, ChildrenFrom;
    NormalizeIdempotent(content);
  }
}
