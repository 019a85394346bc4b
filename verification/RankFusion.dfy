/** Reciprocal rank fusion of ranked candidate lists, with scores in exact arithmetic. */
module RankFusion {
  import opened Common

  type ChunkId = nat

  datatype Candidate = Candidate(id: ChunkId, source: string, rank: nat, score: real, sources: seq<string>)

  /** One sighting of a chunk: its effective rank in a list and the source that ranked it. */
  datatype Entry = Entry(id: ChunkId, rank: nat, source: string)

  /** A missing (zero) rank is replaced by the position, counted from 1. */
  function EntryAt(candidates: seq<Candidate>, i: nat): Entry
    requires i < |candidates|
  {
    var c := candidates[i];
    Entry(c.id, if c.rank != 0 then c.rank else i + 1, c.source)
  }

  function ListEntries(candidates: seq<Candidate>): seq<Entry> {
    seq(|candidates|, i requires 0 <= i < |candidates| => EntryAt(candidates, i))
  }

  function Entries(lists: seq<seq<Candidate>>): seq<Entry> {
    if lists == [] then [] else ListEntries(lists[0]) + Entries(lists[1..])
  }

  function Term(rank: nat, k: nat): real {
    if k + rank == 0 then 0.0 else 1.0 / (k + rank) as real
  }

  /** Sum of the reciprocal-rank terms of one chunk. */
  function Score(es: seq<Entry>, k: nat, id: ChunkId): real {
    if es == [] then 0.0
    else Score(es[..|es| - 1], k, id) + if es[|es| - 1].id == id then Term(es[|es| - 1].rank, k) else 0.0
  }

  predicate Seen(es: seq<Entry>, id: ChunkId) { exists i :: 0 <= i < |es| && es[i].id == id }

  function Best(es: seq<Entry>, id: ChunkId): (r: nat)
    requires Seen(es, id)
    ensures exists i :: 0 <= i < |es| && es[i].id == id && es[i].rank == r
    ensures forall i | 0 <= i < |es| && es[i].id == id :: r <= es[i].rank
  {
    var init, last := es[..|es| - 1], es[|es| - 1];
    if last.id != id then
      Best(init, id)
    else if Seen(init, id) then
      var b := Best(init, id);
      if b <= last.rank then b else last.rank
    else
      assert forall i | 0 <= i < |es| - 1 :: init[i] == es[i];
      last.rank
  }

  /** The distinct sources of one chunk, in order of first sighting. */
  function Sources(es: seq<Entry>, id: ChunkId): (s: seq<string>)
    ensures forall x :: x in s <==> exists i :: 0 <= i < |es| && es[i].id == id && es[i].source == x
    ensures Distinct(s)
  {
    if es == [] then []
    else
      var init, last := es[..|es| - 1], es[|es| - 1];
      assert es == init + [last];
      var s := Sources(init, id);
      if last.id == id && last.source !in s then s + [last.source] else s
  }

  function Label(sources: seq<string>): string
    requires sources != []
  {
    if |sources| > 1 then "hybrid" else sources[0]
  }

  lemma {:induction false} SeenHasSource(es: seq<Entry>, id: ChunkId)
    requires Seen(es, id)
    ensures Sources(es, id) != []
  {
    var i :| 0 <= i < |es| && es[i].id == id;
    assert es[i].source in Sources(es, id);
  }

  function Fused(es: seq<Entry>, k: nat, id: ChunkId): Candidate
    requires Seen(es, id)
  {
    SeenHasSource(es, id);
    Candidate(id, Label(Sources(es, id)), Best(es, id), Score(es, k, id), Sources(es, id))
  }

  /** The sort key order: higher score first, then better rank, then smaller identifier. */
  predicate Before(a: Candidate, b: Candidate) {
    a.score > b.score || (a.score == b.score && (a.rank < b.rank || (a.rank == b.rank && a.id < b.id)))
  }

  predicate Sorted(cs: seq<Candidate>) { forall i, j | 0 <= i < j < |cs| :: Before(cs[i], cs[j]) }

  /** `result` is the sorted list of one fused candidate per chunk seen. */
  ghost predicate IsFusion(es: seq<Entry>, k: nat, result: seq<Candidate>) {
    && Sorted(result)
    && (forall c | c in result :: Seen(es, c.id) && c == Fused(es, k, c.id))
    && (forall id: ChunkId | Seen(es, id) :: Fused(es, k, id) in result)
  }

  // --- The loops ------------------------------------------------------------

  /** The dictionary entries of one chunk after the entries `es`. */
  ghost predicate TalliedAt(
    es: seq<Entry>, k: nat, scores: map<ChunkId, real>, bestRank: map<ChunkId, nat>, sources: map<ChunkId, seq<string>>,
    id: ChunkId) {
    && (id in scores <==> Seen(es, id)) && (id in bestRank <==> Seen(es, id)) && (id in sources <==> Seen(es, id))
    && (Seen(es, id) ==>
          scores[id] == Score(es, k, id) && bestRank[id] == Best(es, id) && sources[id] == Sources(es, id))
  }

  /** The three dictionaries after the entries `es`. */
  ghost predicate Tallied(
    es: seq<Entry>, k: nat, scores: map<ChunkId, real>, bestRank: map<ChunkId, nat>, sources: map<ChunkId,
    seq<string>>) {
    forall id: ChunkId :: TalliedAt(es, k, scores, bestRank, sources, id)
  }

  lemma {:induction false} SeenSnoc(es: seq<Entry>, e: Entry, id: ChunkId)
    ensures Seen(es + [e], id) <==> Seen(es, id) || e.id == id
    ensures (es + [e])[..|es|] == es
  {
    var all := es + [e];
    if Seen(es, id) {
      var i :| 0 <= i < |es| && es[i].id == id;
      assert all[i].id == id;
    }
    if e.id == id {
      assert all[|es|].id == id;
    }
  }

  lemma {:induction false} UnseenScore(es: seq<Entry>, k: nat, id: ChunkId)
    requires !Seen(es, id)
    ensures Score(es, k, id) == 0.0 && Sources(es, id) == []
  {
    if Sources(es, id) != [] {
      assert Sources(es, id)[0] in Sources(es, id);
    }
    if es != [] {
      assert es[|es| - 1].id != id;
      assert Seen(es[..|es| - 1], id) ==> Seen(es, id);
      UnseenScore(es[..|es| - 1], k, id);
    }
  }

  /** What one more entry does to the tally of each chunk. */
  lemma {:induction false} TallyStep(es: seq<Entry>, e: Entry, k: nat, id: ChunkId)
    ensures Seen(es + [e], id) <==> Seen(es, id) || e.id == id
    ensures e.id != id && Seen(es, id) ==>
              && Score(es + [e], k, id) == Score(es, k, id)
              && Best(es + [e], id) == Best(es, id)
              && Sources(es + [e], id) == Sources(es, id)
    ensures e.id == id ==>
              && Score(es + [e], k, id) == (if Seen(es, id) then Score(es, k, id) else 0.0) + Term(e.rank, k)
              && Best(es + [e], id) == (if Seen(es, id) && Best(es, id) <= e.rank then Best(es, id) else e.rank)
    ensures e.id == id ==>
              (var s := if Seen(es, id) then Sources(es, id) else [];
               Sources(es + [e], id) == if e.source !in s then s + [e.source] else s)
  {
    SeenSnoc(es, e, id);
    hide Seen;
    if !Seen(es, id) {
      UnseenScore(es, k, id);
    }
  }

  method TallyEntry(
    scores: map<ChunkId, real>, bestRank: map<ChunkId, nat>, sources: map<ChunkId, seq<string>>,
    candidate: Candidate, index: nat, k: nat, ghost es: seq<Entry>)
    returns (scores': map<ChunkId, real>, bestRank': map<ChunkId, nat>, sources': map<ChunkId, seq<string>>)
    requires Tallied(es, k, scores, bestRank, sources) && index > 0
    ensures Tallied(es + [Entry(candidate.id, if candidate.rank != 0 then candidate.rank else index, candidate.source)],
                    k, scores', bestRank', sources')
  {
    hide Seen, Score, Best, Sources;
    var rank := if candidate.rank != 0 then candidate.rank else index;
    var id := candidate.id;
    var term := 1.0 / (k + rank) as real;
    ghost var e := Entry(id, rank, candidate.source);
    scores' := scores[id := (if id in scores then scores[id] else 0.0) + term];
    bestRank' := bestRank[id := if id in bestRank && bestRank[id] <= rank then bestRank[id] else rank];
    var sourceList := if id in sources then sources[id] else [];
    if candidate.source !in sourceList {
      sourceList := sourceList + [candidate.source];
    }
    sources' := sources[id := sourceList];
    forall other: ChunkId
      ensures TalliedAt(es + [e], k, scores', bestRank', sources', other)
    {
      assert TalliedAt(es, k, scores, bestRank, sources, other);
      TallyStep(es, e, k, other);
    }
  }

  /** Inserts a candidate into a sorted list. */
  function Insert(c: Candidate, cs: seq<Candidate>): seq<Candidate> {
    if cs == [] then [c]
    else if Before(c, cs[0]) then [c] + cs
    else [cs[0]] + Insert(c, cs[1..])
  }

  lemma {:induction false} InsertSorted(c: Candidate, cs: seq<Candidate>)
    requires Sorted(cs) && forall x | x in cs :: x.id != c.id
    ensures Sorted(Insert(c, cs)) && forall x :: x in Insert(c, cs) <==> x == c || x in cs
  {
    if cs != [] && !Before(c, cs[0]) {
      InsertSorted(c, cs[1..]);
      var rest := Insert(c, cs[1..]);
      forall j | 0 <= j < |rest|
        ensures Before(cs[0], rest[j])
      {
        assert rest[j] in rest;
        if rest[j] != c {
          var i :| 0 <= i < |cs[1..]| && cs[1..][i] == rest[j];
          assert cs[1..][i] == cs[i + 1];
        }
      }
    }
  }

  method ReciprocalRankFusion(lists: seq<seq<Candidate>>, rankConstant: nat) returns (fused: seq<Candidate>)
    ensures IsFusion(Entries(lists), rankConstant, fused)
  {
    var scores: map<ChunkId, real> := map[];
    var bestRank: map<ChunkId, nat> := map[];
    var sources: map<ChunkId, seq<string>> := map[];
    ghost var es: seq<Entry> := [];
    hide Seen, Fused, Score, Best, Sources, EntryAt, Term;
    NothingTallied(rankConstant);
    hide Tallied, IsFusion;
    for l := 0 to |lists|
      invariant Tallied(es, rankConstant, scores, bestRank, sources)
      invariant es + Entries(lists[l..]) == Entries(lists)
    {
      var candidates := lists[l];
      ghost var before := es;
      for i := 0 to |candidates|
        invariant es == before + ListEntries(candidates)[..i]
        invariant Tallied(es, rankConstant, scores, bestRank, sources)
      {
        EntryIs(candidates, i);
        scores, bestRank, sources := TallyEntry(scores, bestRank, sources, candidates[i], i + 1, rankConstant, es);
        es := es + [EntryAt(candidates, i)];
      }
      assert lists[l..][1..] == lists[l + 1..];
    }
    assert lists[|lists|..] == [] && es + [] == es;
    fused := SortFused(scores, bestRank, sources, rankConstant, es);
  }

  lemma {:induction false} EntryIs(candidates: seq<Candidate>, i: nat)
    requires i < |candidates|
    ensures EntryAt(candidates, i) ==
            Entry(candidates[i].id, if candidates[i].rank != 0 then candidates[i].rank else i + 1, candidates[i].source)
  {}

  lemma {:induction false} NothingTallied(k: nat)
    ensures Tallied([], k, map[], map[], map[])
  {}

  /** The fused candidate of a chunk, from its entries in the dictionaries. */
  lemma {:induction false} FusedIs(
    es: seq<Entry>, k: nat, scores: map<ChunkId, real>, bestRank: map<ChunkId, nat>, sources: map<ChunkId, seq<string>>,
    id: ChunkId)
    requires Tallied(es, k, scores, bestRank, sources) && id in scores
    ensures Seen(es, id) && id in bestRank && id in sources && sources[id] != []
    ensures Fused(es, k, id) ==
            Candidate(id, if |sources[id]| > 1 then "hybrid" else sources[id][0], bestRank[id], scores[id], sources[id])
  {
    hide Seen, Score, Best, Sources;
    assert TalliedAt(es, k, scores, bestRank, sources, id);
    SeenHasSource(es, id);
  }

  lemma {:induction false} KeysAreSeen(
    es: seq<Entry>, k: nat, scores: map<ChunkId, real>, bestRank: map<ChunkId, nat>, sources: map<ChunkId, seq<string>>)
    requires Tallied(es, k, scores, bestRank, sources)
    ensures forall id: ChunkId :: id in scores <==> Seen(es, id)
  {
    hide Seen;
    forall id: ChunkId
      ensures id in scores <==> Seen(es, id)
    {
      assert TalliedAt(es, k, scores, bestRank, sources, id);
    }
  }

  method SortFused(
    scores: map<ChunkId, real>, bestRank: map<ChunkId, nat>, sources: map<ChunkId, seq<string>>, k: nat,
    ghost es: seq<Entry>) returns (fused: seq<Candidate>)
    requires Tallied(es, k, scores, bestRank, sources)
    ensures IsFusion(es, k, fused)
  {
    hide Seen, Score, Best, Sources, Tallied, Fused, Sorted, Insert;
    KeysAreSeen(es, k, scores, bestRank, sources);
    fused := [];
    NothingSorted();
    var todo := scores.Keys;
    while todo != {}
      invariant todo <= scores.Keys
      invariant Sorted(fused)
      invariant forall c | c in fused :: c.id in scores && c.id !in todo && c == Fused(es, k, c.id)
      invariant forall id | id in scores && id !in todo :: Fused(es, k, id) in fused
      decreases todo
    {
      var id :| id in todo;
      FusedIs(es, k, scores, bestRank, sources, id);
      var sourceList := sources[id];
      var candidate := Candidate(
        id, if |sourceList| > 1 then "hybrid" else sourceList[0], bestRank[id], scores[id], sourceList);
      InsertSorted(candidate, fused);
      fused := Insert(candidate, fused);
      todo := todo - {id};
    }
  }

  lemma {:induction false} NothingSorted()
    ensures Sorted([])
  {}

  // --- The order of the argument lists does not matter ------------------------

  /** A candidate without the order in which its sources were met. */
  function View(c: Candidate): Candidate { c.(sources := []) }

  function Views(cs: seq<Candidate>): (vs: seq<Candidate>)
    ensures |vs| == |cs| && forall i | 0 <= i < |cs| :: vs[i] == View(cs[i])
  {
    seq(|cs|, i requires 0 <= i < |cs| => View(cs[i]))
  }

  function Without<T>(s: seq<T>, j: nat): seq<T>
    requires j < |s|
  {
    s[..j] + s[j + 1..]
  }

  lemma {:induction false} TakeOut<T>(a: seq<T>, b: seq<T>) returns (j: nat)
    requires multiset(a) == multiset(b) && a != []
    ensures j < |b| && b[j] == a[0]
    ensures multiset(a[1..]) == multiset(Without(b, j))
  {
    assert a == [a[0]] + a[1..];
    assert multiset(a) == multiset{a[0]} + multiset(a[1..]);
    assert a[0] in multiset(b);
    j :| 0 <= j < |b| && b[j] == a[0];
    assert b == b[..j] + [b[j]] + b[j + 1..];
    assert multiset(b) == multiset{b[j]} + multiset(Without(b, j));
    assert multiset(a[1..]) == multiset(a) - multiset{a[0]};
    assert multiset(Without(b, j)) == multiset(b) - multiset{a[0]};
  }

  lemma {:induction false} ScoreConcat(a: seq<Entry>, b: seq<Entry>, k: nat, id: ChunkId)
    ensures Score(a + b, k, id) == Score(a, k, id) + Score(b, k, id)
    decreases |b|
  {
    if b == [] {
      assert a + b == a;
    } else {
      assert (a + b)[..|a + b| - 1] == a + b[..|b| - 1];
      ScoreConcat(a, b[..|b| - 1], k, id);
    }
  }

  lemma {:induction false} ScorePermuted(a: seq<Entry>, b: seq<Entry>, k: nat, id: ChunkId)
    requires multiset(a) == multiset(b)
    ensures Score(a, k, id) == Score(b, k, id)
    decreases |a|
  {
    if a == [] {
      assert |multiset(b)| == 0;
      assert |b| == 0;
    } else {
      var first := a[0];
      var j := TakeOut(a, b);
      ScorePermuted(a[1..], Without(b, j), k, id);
      assert a == [first] + a[1..] && b == b[..j] + ([first] + b[j + 1..]);
      ScoreConcat([first], a[1..], k, id);
      ScoreConcat(b[..j], [first] + b[j + 1..], k, id);
      ScoreConcat([first], b[j + 1..], k, id);
      ScoreConcat(b[..j], b[j + 1..], k, id);
    }
  }

  lemma {:induction false} SameMembers(a: seq<Entry>, b: seq<Entry>)
    requires multiset(a) == multiset(b)
    ensures forall e :: e in a <==> e in b
  {
    forall e
      ensures e in a <==> e in b
    {
      assert e in a <==> e in multiset(a);
      assert e in b <==> e in multiset(b);
    }
  }

  lemma {:induction false} DistinctCard(s: seq<string>)
    requires Distinct(s)
    ensures |set x | x in s| == |s|
  {
    if s != [] {
      var init, last := s[..|s| - 1], s[|s| - 1];
      DistinctCard(init);
      assert s == init + [last];
      assert (set x | x in s) == (set x | x in init) + {last};
    }
  }

  lemma {:induction false} LabelOfSet(s: seq<string>, t: seq<string>)
    requires Distinct(s) && Distinct(t) && s != [] && t != [] && forall x :: x in s <==> x in t
    ensures Label(s) == Label(t)
  {
    DistinctCard(s);
    DistinctCard(t);
    assert (set x | x in s) == (set x | x in t);
    assert s[0] in t;
  }

  /** Score, best rank and source label of a chunk depend only on the collection of entries. */
  lemma {:induction false} FusedPermuted(a: seq<Entry>, b: seq<Entry>, k: nat, id: ChunkId)
    requires multiset(a) == multiset(b)
    ensures Seen(a, id) <==> Seen(b, id)
    ensures Seen(a, id) ==> View(Fused(a, k, id)) == View(Fused(b, k, id))
  {
    SameMembers(a, b);
    SeenMember(a, b, id);
    SeenMember(b, a, id);
    if Seen(a, id) {
      ScorePermuted(a, b, k, id);
      BestMember(a, b, id);
      BestMember(b, a, id);
      SourcesMember(a, b, id);
      SourcesMember(b, a, id);
      SeenHasSource(a, id);
      SeenHasSource(b, id);
      LabelOfSet(Sources(a, id), Sources(b, id));
    }
  }

  lemma {:induction false} SeenMember(a: seq<Entry>, b: seq<Entry>, id: ChunkId)
    requires forall e :: e in a ==> e in b
    ensures Seen(a, id) ==> Seen(b, id)
  {
    if Seen(a, id) {
      var i :| 0 <= i < |a| && a[i].id == id;
      assert a[i] in a;
    }
  }

  lemma {:induction false} BestMember(a: seq<Entry>, b: seq<Entry>, id: ChunkId)
    requires Seen(a, id) && Seen(b, id) && forall e :: e in a ==> e in b
    ensures Best(b, id) <= Best(a, id)
  {
    var i :| 0 <= i < |a| && a[i].id == id && a[i].rank == Best(a, id);
    assert a[i] in a;
  }

  lemma {:induction false} SourcesMember(a: seq<Entry>, b: seq<Entry>, id: ChunkId)
    requires forall e :: e in a ==> e in b
    ensures forall x :: x in Sources(a, id) ==> x in Sources(b, id)
  {
    forall x | x in Sources(a, id)
      ensures x in Sources(b, id)
    {
      var i :| 0 <= i < |a| && a[i].id == id && a[i].source == x;
      assert a[i] in a;
    }
  }

  lemma {:induction false} EntriesConcat(a: seq<seq<Candidate>>, b: seq<seq<Candidate>>)
    ensures Entries(a + b) == Entries(a) + Entries(b)
  {
    if a == [] {
      assert a + b == b;
    } else {
      assert (a + b)[1..] == a[1..] + b;
      EntriesConcat(a[1..], b);
    }
  }

  lemma {:induction false} EntriesAround(front: seq<seq<Candidate>>, list: seq<Candidate>, back: seq<seq<Candidate>>)
    ensures multiset(Entries(front + ([list] + back))) == multiset(ListEntries(list)) + multiset(Entries(front + back))
  {
    hide ListEntries;
    EntriesConcat(front, [list] + back);
    EntriesConcat(front, back);
    assert ([list] + back)[1..] == back;
  }

  lemma {:induction false} EntriesPermuted(lists: seq<seq<Candidate>>, permuted: seq<seq<Candidate>>)
    requires multiset(lists) == multiset(permuted)
    ensures multiset(Entries(lists)) == multiset(Entries(permuted))
    decreases |lists|
  {
    hide ListEntries;
    if lists == [] {
      assert |multiset(permuted)| == 0;
      assert |permuted| == 0;
    } else {
      var j := TakeOut(lists, permuted);
      EntriesPermuted(lists[1..], Without(permuted, j));
      hide Entries;
      EntriesAround(permuted[..j], lists[0], permuted[j + 1..]);
      assert permuted == permuted[..j] + ([lists[0]] + permuted[j + 1..]);
      EntriesAround([], lists[0], lists[1..]);
      assert lists == [] + ([lists[0]] + lists[1..]) && [] + lists[1..] == lists[1..];
    }
  }

  /** Two sorted lists with the same members are equal. */
  lemma {:induction false} SortedUnique(a: seq<Candidate>, b: seq<Candidate>)
    requires Sorted(a) && Sorted(b) && forall c :: c in a <==> c in b
    ensures a == b
  {
    assert a == [] <==> b == [] by {
      assert a != [] ==> a[0] in a;
      assert b != [] ==> b[0] in b;
    }
    if a != [] {
      assert a[0] in b && b[0] in a;
      assert a[0] == b[0];
      var a', b' := a[1..], b[1..];
      assert a == [a[0]] + a' && b == [b[0]] + b';
      forall c
        ensures c in a' <==> c in b'
      {
        assert c in a <==> c == a[0] || c in a';
        assert c in b <==> c == b[0] || c in b';
        assert a[0] !in a' && b[0] !in b';
      }
      SortedUnique(a', b');
    }
  }

  lemma {:induction false} ViewsSorted(cs: seq<Candidate>)
    requires Sorted(cs)
    ensures Sorted(Views(cs))
  {}

  lemma {:induction false} ViewsMembers(
    a: seq<Entry>, b: seq<Entry>, k: nat, x: seq<Candidate>, y: seq<Candidate>, c: Candidate)
    requires multiset(a) == multiset(b) && IsFusion(a, k, x) && IsFusion(b, k, y) && c in Views(x)
    ensures c in Views(y)
  {
    var i :| 0 <= i < |x| && c == View(x[i]);
    var id := x[i].id;
    assert x[i] in x;
    FusedPermuted(a, b, k, id);
    assert Fused(b, k, id) in y;
    var j :| 0 <= j < |y| && y[j] == Fused(b, k, id);
    assert Views(y)[j] == c;
  }

  /** Fusing the same lists in any order gives the same sequence of chunks, scores, ranks and source labels. */
  lemma {:induction false} FusionOrderInsensitive(
    lists: seq<seq<Candidate>>, permuted: seq<seq<Candidate>>, k: nat, x: seq<Candidate>, y: seq<Candidate>)
    requires multiset(lists) == multiset(permuted)
    requires IsFusion(Entries(lists), k, x) && IsFusion(Entries(permuted), k, y)
    ensures Views(x) == Views(y)
  {
    hide IsFusion;
    EntriesPermuted(lists, permuted);
    forall c
      ensures c in Views(x) <==> c in Views(y)
    {
      if c in Views(x) {
        ViewsMembers(Entries(lists), Entries(permuted), k, x, y, c);
      }
      if c in Views(y) {
        ViewsMembers(Entries(permuted), Entries(lists), k, y, x, c);
      }
    }
    FusionSorted(Entries(lists), k, x);
    FusionSorted(Entries(permuted), k, y);
    ViewsSorted(x);
    ViewsSorted(y);
    SortedUnique(Views(x), Views(y));
  }

  lemma {:induction false} FusionSorted(es: seq<Entry>, k: nat, x: seq<Candidate>)
    requires IsFusion(es, k, x)
    ensures Sorted(x)
  {}

  // --- Fusing with nothing ----------------------------------------------------

  /** A list whose ranks are its positions and whose chunks are distinct. */
  predicate Ranked(cs: seq<Candidate>) {
    && (forall i | 0 <= i < |cs| :: cs[i].rank == i + 1)
    && (forall i, j | 0 <= i < j < |cs| :: cs[i].id != cs[j].id)
  }

  lemma {:induction false} ReciprocalDecreases(a: nat, b: nat)
    requires 0 < a < b
    ensures 1.0 / a as real > 1.0 / b as real
  {
    var x, y := a as real, b as real;
    var p, q := 1.0 / x, 1.0 / y;
    Inverse(x);
    Inverse(y);
    ProductPositive(p, y - x);
    Distribute(p, y, x);
    Distribute(y, p, q);
    FactorPositive(y, p - q);
  }

  lemma Inverse(x: real)
    requires x > 0.0
    ensures 1.0 / x > 0.0 && 1.0 / x * x == 1.0 && x * (1.0 / x) == 1.0
  {}

  lemma ProductPositive(x: real, y: real)
    requires x > 0.0 && y > 0.0
    ensures x * y > 0.0
  {}

  lemma Distribute(x: real, y: real, z: real)
    ensures x * (y - z) == x * y - x * z && x * y == y * x
  {}

  lemma FactorPositive(x: real, y: real)
    requires x > 0.0 && x * y > 0.0
    ensures y > 0.0
  {}

  lemma {:induction false} OnlySighting(cs: seq<Candidate>, es: seq<Entry>, k: nat, i: nat)
    requires Ranked(cs) && i < |cs| && es == ListEntries(cs)
    ensures Seen(es, cs[i].id) && Fused(es, k, cs[i].id).rank == i + 1
    ensures Fused(es, k, cs[i].id).score == 1.0 / (k + i + 1) as real
  {
    var id := cs[i].id;
    assert es[i].id == id;
    forall j | 0 <= j < |es| && es[j].id == id
      ensures j == i
    {
    }
    SingleScore(es, k, id, i);
  }

  lemma {:induction false} SingleScore(es: seq<Entry>, k: nat, id: ChunkId, i: nat)
    requires i < |es| && es[i].id == id && forall j | 0 <= j < |es| && es[j].id == id :: j == i
    ensures Score(es, k, id) == Term(es[i].rank, k)
  {
    var init := es[..|es| - 1];
    if i == |es| - 1 {
      UnseenScore(init, k, id);
    } else {
      SingleScore(init, k, id, i);
    }
  }

  /** The identifiers of a candidate list, in order. */
  function Ids(cs: seq<Candidate>): (ids: seq<ChunkId>)
    ensures |ids| == |cs| && forall i | 0 <= i < |cs| :: ids[i] == cs[i].id
  {
    seq(|cs|, i requires 0 <= i < |cs| => cs[i].id)
  }

  /** The fused candidates of a ranked list, in the order of the list. */
  ghost predicate InListOrder(cs: seq<Candidate>, es: seq<Entry>, k: nat, expected: seq<Candidate>) {
    && |expected| == |cs|
    && forall i | 0 <= i < |cs| :: Seen(es, cs[i].id) && expected[i] == Fused(es, k, cs[i].id)
  }

  lemma {:induction false} ListOrderSorted(cs: seq<Candidate>, es: seq<Entry>, k: nat, expected: seq<Candidate>)
    requires Ranked(cs) && es == ListEntries(cs) && InListOrder(cs, es, k, expected)
    ensures Sorted(expected)
  {
    hide Seen, Fused, ListEntries;
    forall i, j | 0 <= i < j < |cs|
      ensures Before(expected[i], expected[j])
    {
      OnlySighting(cs, es, k, i);
      OnlySighting(cs, es, k, j);
      ReciprocalDecreases(k + i + 1, k + j + 1);
    }
  }

  lemma {:induction false} ListOrderMembers(
    cs: seq<Candidate>, es: seq<Entry>, k: nat, expected: seq<Candidate>, fused: seq<Candidate>)
    requires Ranked(cs) && es == ListEntries(cs) && InListOrder(cs, es, k, expected) && IsFusion(es, k, fused)
    ensures forall c :: c in expected <==> c in fused
  {
    hide Fused;
    forall c
      ensures c in expected <==> c in fused
    {
      if c in fused {
        var i :| 0 <= i < |es| && es[i].id == c.id;
        assert expected[i] == c;
      }
    }
  }

  lemma {:induction false} EntriesOfOne(cs: seq<Candidate>)
    ensures Entries([cs, []]) == ListEntries(cs)
  {
    var nothing: seq<Candidate> := [];
    assert [cs, nothing][1..] == [nothing] && [nothing][1..] == [];
    assert Entries([nothing]) == ListEntries(nothing) + Entries([]);
  }

  /** Fusing a ranked list with an empty one keeps its chunks in the same order. */
  lemma {:induction false} FusingWithNothing(cs: seq<Candidate>, k: nat, fused: seq<Candidate>)
    requires Ranked(cs) && IsFusion(Entries([cs, []]), k, fused)
    ensures Ids(fused) == Ids(cs)
  {
    hide ListEntries, Seen, IsFusion, Sorted;
    EntriesOfOne(cs);
    var es := ListEntries(cs);
    forall i | 0 <= i < |cs|
      ensures Seen(es, cs[i].id)
    {
      OnlySighting(cs, es, k, i);
    }
    var expected := seq(|cs|, i requires 0 <= i < |cs| => Fused(es, k, cs[i].id));
    assert InListOrder(cs, es, k, expected);
    ListOrderSorted(cs, es, k, expected);
    ListOrderMembers(cs, es, k, expected, fused);
    FusionSorted(es, k, fused);
    SortedUnique(expected, fused);
  }
}
