/** The heading path of a chunk: the paths of the sections packed into its parent, each once, in order. */
module HeadingPaths {
  import opened Common
  import opened Characters
  import opened Tokenizer
  import opened Normalization
  import opened MarkdownSections
  import opened TokenWindows
  import opened Chunking
  import opened ChunkingTheorems

  // --- Merged paths -----------------------------------------------------------

  /** The first section with this heading path, or the number of sections. */
  function FirstAt(sections: seq<Section>, path: string): (k: nat)
    ensures k <= |sections|
    ensures k < |sections| ==> sections[k].headingPath == path
    ensures forall i | 0 <= i < k :: sections[i].headingPath != path
  {
    if sections == [] || sections[0].headingPath == path then 0 else 1 + FirstAt(sections[1..], path)
  }

  predicate InOrder(sections: seq<Section>, paths: seq<string>) {
    forall i, j | 0 <= i < j < |paths| :: FirstAt(sections, paths[i]) < FirstAt(sections, paths[j])
  }

  predicate IsPathOf(sections: seq<Section>, path: string) {
    path != "" && exists k :: 0 <= k < |sections| && sections[k].headingPath == path
  }

  /** The non-empty heading paths of the sections, each once, in order of first occurrence. */
  ghost predicate FirstOccurrences(sections: seq<Section>, paths: seq<string>) {
    && Distinct(paths)
    && (forall p :: p in paths <==> IsPathOf(sections, p))
    && InOrder(sections, paths)
  }

  lemma {:induction false} FirstAtSnoc(init: seq<Section>, last: Section, path: string)
    ensures IsPathOf(init, path) ==> FirstAt(init + [last], path) == FirstAt(init, path) < |init|
    ensures path != "" && !IsPathOf(init, path) && last.headingPath == path ==> FirstAt(init + [last], path) == |init|
  {
    hide FirstAt;
    var all := init + [last];
    assert all[|init|] == last && forall i | 0 <= i < |init| :: all[i] == init[i];
  }

  /** Merging yields just such a list. */
  lemma {:induction false} MergedPaths(sections: seq<Section>)
    ensures FirstOccurrences(sections, UniquePaths(sections))
  {
    hide FirstAt;
    var paths := UniquePaths(sections);
    MembersMeet(sections);
    if sections != [] {
      var init, last := sections[..|sections| - 1], sections[|sections| - 1];
      var before := UniquePaths(init);
      MergedPaths(init);
      assert sections == init + [last];
      forall i, j | 0 <= i < j < |paths|
        ensures FirstAt(sections, paths[i]) < FirstAt(sections, paths[j])
      {
        assert paths[i] == before[i] && before[i] in before;
        FirstAtSnoc(init, last, paths[i]);
        if j < |before| {
          assert paths[j] == before[j] && before[j] in before;
        }
        FirstAtSnoc(init, last, paths[j]);
      }
    }
  }

  lemma {:induction false} MembersMeet(sections: seq<Section>)
    ensures Distinct(UniquePaths(sections))
    ensures forall p :: p in UniquePaths(sections) <==> IsPathOf(sections, p)
  {
    hide UniquePaths;
    var paths := UniquePaths(sections);
    forall p
      ensures p in paths <==> IsPathOf(sections, p)
    {
      if p in paths {
        var s :| s in sections && s.headingPath == p;
      }
      if k :| 0 <= k < |sections| && sections[k].headingPath == p {
        assert sections[k] in sections;
      }
    }
  }

  /** There is only one such list. */
  lemma {:induction false} InOrderUnique(sections: seq<Section>, a: seq<string>, b: seq<string>)
    requires InOrder(sections, a) && InOrder(sections, b) && forall p :: p in a <==> p in b
    ensures a == b
  {
    hide FirstAt;
    if a == [] {
      assert forall k | 0 <= k < |b| :: b[k] in b;
    } else {
      assert a[0] in a;
      var j :| 0 <= j < |b| && b[j] == a[0];
      assert b[0] in b;
      var i :| 0 <= i < |a| && a[i] == b[0];
      assert a[0] == b[0];
      TailMembers(sections, a);
      TailMembers(sections, b);
      InOrderUnique(sections, a[1..], b[1..]);
      assert a == [a[0]] + a[1..] && b == [b[0]] + b[1..];
    }
  }

  lemma {:induction false} TailMembers(sections: seq<Section>, a: seq<string>)
    requires InOrder(sections, a) && a != []
    ensures InOrder(sections, a[1..])
    ensures forall p :: p in a[1..] <==> p in a && p != a[0]
  {
    hide FirstAt;
    forall p
      ensures p in a[1..] <==> p in a && p != a[0]
    {
      if p in a[1..] {
        var i :| 0 <= i < |a| - 1 && a[1..][i] == p;
        assert a[i + 1] == p && FirstAt(sections, a[0]) < FirstAt(sections, a[i + 1]);
      }
      if p in a && p != a[0] {
        var i :| 0 <= i < |a| && a[i] == p;
        assert a[1..][i - 1] == p;
      }
    }
  }

  // --- The parents of a group -------------------------------------------------

  /** Whether joined or split, what is made of a group carries its merged paths. */
  lemma {:induction false} RenderedPath(group: seq<Section>, target: nat, k: nat)
    requires group != [] && target > 0 && k < |Render(group, target)|
    ensures Render(group, target)[k].headingPath == Join(" | ", UniquePaths(group))
  {
    hide Split, TokenCount, Texts, Strip;
    if |group| == 1 && TokenCount(group[0].text) > target {
      assert group == [] + [group[0]] && group[..0] == [];
    }
  }

  lemma {:induction false} RenderAllPrefix(groups: seq<seq<Section>>, target: nat, g: nat)
    requires NoEmptyGroup(groups) && target > 0 && g < |groups|
    ensures NoEmptyGroup(groups[..g]) && NoEmptyGroup(groups[..g + 1]) && NoEmptyGroup(groups[g + 1..])
    ensures RenderAll(groups[..g + 1], target) == RenderAll(groups[..g], target) + Render(groups[g], target)
    ensures RenderAll(groups, target) == RenderAll(groups[..g + 1], target) + RenderAll(groups[g + 1..], target)
  {
    hide Render, RenderAll;
    assert groups[..g + 1] == groups[..g] + [groups[g]];
    RenderAllSnoc(groups[..g], groups[g], target);
    assert groups == groups[..g + 1] + groups[g + 1..];
    RenderAllConcat(groups[..g + 1], groups[g + 1..], target);
  }

  lemma {:induction false} RenderAllConcat(a: seq<seq<Section>>, b: seq<seq<Section>>, target: nat)
    requires NoEmptyGroup(a) && NoEmptyGroup(b) && target > 0
    ensures NoEmptyGroup(a + b)
    ensures RenderAll(a + b, target) == RenderAll(a, target) + RenderAll(b, target)
  {
    hide Render;
    if a == [] {
      assert a + b == b;
    } else {
      assert (a + b)[1..] == a[1..] + b;
      RenderAllConcat(a[1..], b, target);
    }
  }

  /** The group that the parent text at position `p` was made of. */
  lemma {:induction false} GroupOf(groups: seq<seq<Section>>, target: nat, p: nat) returns (g: nat)
    requires NoEmptyGroup(groups) && target > 0 && p < |RenderAll(groups, target)|
    ensures g < |groups| && NoEmptyGroup(groups[..g]) && NoEmptyGroup(groups[..g + 1])
    ensures |RenderAll(groups[..g], target)| <= p < |RenderAll(groups[..g + 1], target)|
  {
    hide Render;
    var n := |groups| - 1;
    RenderAllPrefix(groups, target, n);
    assert groups[..n + 1] == groups;
    if p < |RenderAll(groups[..n], target)| {
      g := GroupOf(groups[..n], target, p);
      assert groups[..n][..g] == groups[..g] && groups[..n][..g + 1] == groups[..g + 1];
    } else {
      g := n;
    }
  }

  /** Parents `a..b` hold the tokens of group `g`, those before them the tokens of the groups before. */
  predicate PackedFrom(parents: seq<ChunkDraft>, groups: seq<seq<Section>>, g: nat, a: nat, b: nat) {
    && g < |groups| && a < b <= |parents|
    && TokensAll(DraftTexts(parents[..a])) == TokensAll(Texts(Flatten(groups[..g])))
    && TokensAll(DraftTexts(parents[a..b])) == TokensAll(Texts(groups[g]))
  }

  lemma {:induction false} SlicesOfTexts(ps: seq<ParentText>, a: nat, b: nat)
    requires a <= b <= |ps|
    ensures DraftTexts(NumberedAfter(0, ps)[..a]) == TextsOf(ps[..a])
    ensures DraftTexts(NumberedAfter(0, ps)[a..b]) == TextsOf(ps[a..b])
  {
    hide TokenCount, ParentDraft, TextsOf;
    TextsAt(ps[..a]);
    TextsAt(ps[a..b]);
    forall k | 0 <= k < |ps|
      ensures NumberedAfter(0, ps)[k].text == ps[k].text
    {
      assert NumberedAfter(0, ps)[k] == ParentDraft(k + 1, ps[k]);
      DraftKeeps(k + 1, ps[k]);
    }
  }

  lemma DraftKeeps(ordinal: nat, p: ParentText)
    ensures ParentDraft(ordinal, p).text == p.text && ParentDraft(ordinal, p).headingPath == p.headingPath
  {
    hide TokenCount;
  }

  lemma {:induction false} TextsAt(ps: seq<ParentText>)
    ensures |TextsOf(ps)| == |ps| && forall k | 0 <= k < |ps| :: TextsOf(ps)[k] == ps[k].text
  {
    if ps != [] {
      TextsAt(ps[1..]);
    }
  }

  lemma {:induction false} GroupSlices(groups: seq<seq<Section>>, target: nat, g: nat, parents: seq<ChunkDraft>)
    returns (a: nat, b: nat)
    requires NoEmptyGroup(groups) && target > 0 && g < |groups|
    requires NoEmptyGroup(groups[..g]) && NoEmptyGroup(groups[..g + 1])
    requires parents == NumberedAfter(0, RenderAll(groups, target))
    requires |RenderAll(groups[..g], target)| < |RenderAll(groups[..g + 1], target)|
    ensures a == |RenderAll(groups[..g], target)| && b == |RenderAll(groups[..g + 1], target)|
    ensures b == a + |Render(groups[g], target)| <= |RenderAll(groups, target)| == |parents|
    ensures RenderAll(groups, target)[a..b] == Render(groups[g], target)
    ensures PackedFrom(parents, groups, g, a, b)
  {
    hide Render, RenderAll, ParentDraft, TextsOf, DraftTexts, TokensAll, Flatten, Texts;
    RenderAllPrefix(groups, target, g);
    var ps := RenderAll(groups, target);
    a, b := |RenderAll(groups[..g], target)|, |RenderAll(groups[..g + 1], target)|;
    assert ps[..a] == RenderAll(groups[..g], target);
    assert ps[a..b] == Render(groups[g], target);
    SlicesOfTexts(ps, a, b);
    RenderAllTokens(groups[..g], target);
    RenderTokens(groups[g], target);
  }

  // --- End to end -------------------------------------------------------------

  /** For any greedy grouping of the sections of a document, in particular the one that is packed: each parent holds
      tokens of one group, and its heading path lists exactly the non-empty paths of the sections of that group, each
      once, in order of first occurrence. */
  lemma {:induction false} ParentHeadingPath(
    content: string, markdown: bool, config: Config, groups: seq<seq<Section>>, p: nat)
    returns (g: nat, a: nat, b: nat, paths: seq<string>)
    requires config.Valid() && p < |Parents(content, markdown, config)|
    requires IsGreedy(groups, config.parentTarget)
    requires Flatten(groups) == SectionsOf(Normalize(content), markdown)
    ensures PackedFrom(Parents(content, markdown, config), groups, g, a, b) && a <= p < b
    ensures FirstOccurrences(groups[g], paths)
    ensures Parents(content, markdown, config)[p].headingPath == Join(" | ", paths)
  {
    hide Normalize, SectionsOf, Render, RenderAll, IsGreedy, Flatten, PackedFrom, FirstOccurrences, UniquePaths, Join;
    hide ParentDraft;
    var target, parents := config.parentTarget, Parents(content, markdown, config);
    PackedIsGreedy(SectionsOf(Normalize(content), markdown), groups, target);
    var ps := RenderAll(groups, target);
    g := GroupOf(groups, target, p);
    a, b := GroupSlices(groups, target, g, parents);
    assert ps[p] == ps[a..b][p - a];
    RenderedPath(groups[g], target, p - a);
    DraftKeeps(p + 1, ps[p]);
    paths := UniquePaths(groups[g]);
    MergedPaths(groups[g]);
  }

  lemma {:induction false} PackedIsGreedy(sections: seq<Section>, groups: seq<seq<Section>>, target: nat)
    requires target > 0 && IsGreedy(groups, target) && Flatten(groups) == sections
    ensures NoEmptyGroup(groups) && ParentChunks(sections, target) == NumberedAfter(0, RenderAll(groups, target))
  {
    hide RenderAll, Flatten, Weight, TokenCount, ParentDraft;
    EmptyWeight();
    GroupsAreGreedy(sections, 0, [], target);
    assert [] + sections[0..] == sections;
    GreedyUnique(GroupsFrom(sections, 0, [], target), groups, target);
  }

  /** A child carries the heading path of the parent it names. */
  lemma {:induction false} ChildHeadingPath(content: string, markdown: bool, config: Config, i: nat) returns (p: nat)
    requires config.Valid() && Pipeline(content, markdown, config).Chunked?
    requires i < |Pipeline(content, markdown, config).chunks|
    requires Pipeline(content, markdown, config).chunks[i].kind == Child
    ensures var chunk, parents := Pipeline(content, markdown, config).chunks[i], Parents(content, markdown, config);
            p < |parents| && chunk.parentRef == Some(parents[p].ref) && chunk.headingPath == parents[p].headingPath
  {
    hide Pipeline, Normalize, Parents, ChildrenFrom, ChildTexts, ChildDraft;
    PipelineChunks(content, markdown, config);
    var parents := Parents(content, markdown, config);
    assert i >= |parents| by {
      if i < |parents| {
        ParentsWithinBudget(content, markdown, config, i);
      }
    }
    var index;
    p, index := ChildProvenance(parents, 0, |parents| + 1, config, i - |parents|);
    ChildKeeps(i + 1, parents[p], index + 1, ChildTexts(parents[p], config)[index]);
  }

  lemma ChildKeeps(ordinal: nat, parent: ChunkDraft, index: nat, text: string)
    ensures ChildDraft(ordinal, parent, index, text).parentRef == Some(parent.ref)
    ensures ChildDraft(ordinal, parent, index, text).headingPath == parent.headingPath
  {
    hide TokenCount;
  }
}
