/** What the scores of retrieval candidates are: shared terms for keywords, reciprocal ranks for fusion. */
module RetrievalScores {
  import opened Common
  import opened Characters
  import opened Tokenizer
  import opened TokenShapes
  import opened KnowledgeState
  import opened RankFusion
  import opened Retrieval

  // --- Keywords ---------------------------------------------------------------------------------

  /** A word or Han character of the text that reads like this in lower case. */
  predicate Uses(text: string, term: string) {
    exists i :: 0 <= i < |Tokens(text)| && Lower(Tokens(text)[i]) == term && IsTerm(Tokens(text)[i])
  }

  predicate IsTerm(token: string) {
    token != "" && (IsWordChar(token[0]) || '\U{4E00}' <= token[0] <= '\U{9FFF}')
  }

  lemma {:induction false} TermsAre(text: string, term: string)
    ensures term in Terms(text) <==> Uses(text, term)
  {
    hide Tokens, KindOf, IsWordChar, Lower;
    forall t: string | t != ""
      ensures KindOf(t[0]) in {Word, Han} <==> IsTerm(t)
    {
      Classes(t[0]);
    }
    if term in Terms(text) {
      var t :| t in Tokens(text) && t != "" && KindOf(t[0]) in {Word, Han} && Lower(t) == term;
      var i :| 0 <= i < |Tokens(text)| && Tokens(text)[i] == t;
      assert IsTerm(Tokens(text)[i]);
    }
    if i :| 0 <= i < |Tokens(text)| && Lower(Tokens(text)[i]) == term && IsTerm(Tokens(text)[i]) {
      assert Tokens(text)[i] in Tokens(text);
    }
  }

  lemma {:induction false} UsesConcat(a: string, b: string, c: string, term: string)
    requires Tokens(c) == Tokens(a) + Tokens(b)
    ensures Uses(c, term) <==> Uses(a, term) || Uses(b, term)
  {
    hide Tokens, IsTerm, Lower;
    var n := |Tokens(a)|;
    assert forall i | 0 <= i < n :: Tokens(c)[i] == Tokens(a)[i];
    assert forall i | 0 <= i < |Tokens(b)| :: Tokens(c)[n + i] == Tokens(b)[i];
    if i :| 0 <= i < |Tokens(c)| && Lower(Tokens(c)[i]) == term && IsTerm(Tokens(c)[i]) {
      assert i >= n ==> Tokens(c)[i] == Tokens(b)[i - n];
    }
  }

  /** The record mentions the term in its preview, its title, its document reference or its chunk reference. */
  predicate Mentions(r: Record, term: string) {
    || Uses(r.chunk.preview, term) || Uses(r.document.title, term)
    || Uses(r.document.key.ref, term) || Uses(r.chunk.ref, term)
  }

  lemma {:induction false} SearchTextUses(r: Record, term: string)
    ensures Uses(SearchText(r), term) <==> Mentions(r, term)
  {
    hide Tokens, Uses, IsSpace;
    var a, b, c, d := r.chunk.preview, r.document.title, r.document.key.ref, r.chunk.ref;
    Blank();
    TokensOfJoin(" ", [a, b, c, d]);
    TokensOfJoin(" ", [b, c, d]);
    TokensOfJoin(" ", [c, d]);
    TokensOfJoin(" ", [d]);
    assert [a, b, c, d][1..] == [b, c, d] && [b, c, d][1..] == [c, d] && [c, d][1..] == [d];
    UsesConcat(a, Join(" ", [b, c, d]), SearchText(r), term);
    UsesConcat(b, Join(" ", [c, d]), Join(" ", [b, c, d]), term);
    UsesConcat(c, d, Join(" ", [c, d]), term);
  }

  lemma Blank()
    ensures AllSpace(" ")
  {}

  /** The keyword score of a record counts the different terms that the query uses and the record mentions. */
  lemma {:induction false} KeywordScoreCounts(query: string, r: Record, shared: set<string>)
    requires forall term :: term in shared <==> Uses(query, term) && Mentions(r, term)
    ensures KeywordScore(query, r) == |shared|
  {
    hide Terms, SearchText, Uses, Mentions;
    forall term
      ensures term in Terms(query) * Terms(SearchText(r)) <==> term in shared
    {
      TermsAre(query, term);
      TermsAre(SearchText(r), term);
      SearchTextUses(r, term);
    }
    assert Terms(query) * Terms(SearchText(r)) == shared;
  }

  /** Some term that the query uses is mentioned by the record. */
  ghost predicate SharesTerm(query: string, r: Record) { exists term :: Uses(query, term) && Mentions(r, term) }

  lemma {:induction false} ScoredIff(query: string, r: Record)
    ensures KeywordScore(query, r) > 0 <==> SharesTerm(query, r)
  {
    hide Terms, SearchText, Uses, Mentions;
    var shared := Terms(query) * Terms(SearchText(r));
    forall term: string
      ensures term in shared <==> Uses(query, term) && Mentions(r, term)
    {
      TermsAre(query, term);
      TermsAre(SearchText(r), term);
      SearchTextUses(r, term);
    }
    if term :| Uses(query, term) && Mentions(r, term) {
      assert term in shared;
    }
    if shared != {} {
      var term :| term in shared;
    }
  }

  /** The keyword ranking lists exactly the records that share a term with the query, each once, with its score, rank
      and source; a higher score comes first, and of equal scores the smaller identifier. */
  lemma {:induction false} KeywordRankingLists(query: string, records: map<Id, Record>, cs: seq<Candidate>)
    requires KeyedById(records) && IsKeywordRanking(query, records, cs)
    ensures forall i | 0 <= i < |cs| ::
              && cs[i].id in records && cs[i].rank == i + 1 && cs[i].source == "keyword"
              && cs[i].score == KeywordScore(query, records[cs[i].id]) as real
    ensures forall id :: (exists i :: 0 <= i < |cs| && cs[i].id == id) <==>
                         id in records && SharesTerm(query, records[id])
    ensures forall i, j | 0 <= i < j < |cs| ::
              cs[i].score > cs[j].score || (cs[i].score == cs[j].score && cs[i].id < cs[j].id)
  {
    hide KeywordScore, SharesTerm;
    var us := Unranked(cs);
    forall i | 0 <= i < |cs|
      ensures us[i] in us && us[i].id == cs[i].id && us[i].score == cs[i].score && us[i].source == cs[i].source
    {}
    forall id
      ensures (exists i :: 0 <= i < |cs| && cs[i].id == id) <==> id in records && SharesTerm(query, records[id])
    {
      if id in records {
        ScoredIff(query, records[id]);
        if SharesTerm(query, records[id]) {
          assert Scored(query, records[id]) in us;
        }
      }
    }
  }

  // --- Fusion -------------------------------------------------------------------------------------

  /** The chunk stands at position `i` of the list and nowhere else. */
  predicate StandsAt(cs: seq<Candidate>, id: Id, i: nat) {
    i < |cs| && cs[i].id == id && forall j | 0 <= j < |cs| && cs[j].id == id :: j == i
  }

  predicate Absent(cs: seq<Candidate>, id: Id) { forall j | 0 <= j < |cs| :: cs[j].id != id }

  /** The rank of a candidate, or its place when it has none. */
  function PlaceOf(cs: seq<Candidate>, i: nat): (n: nat)
    requires i < |cs|
    ensures n > 0
  {
    if cs[i].rank > 0 then cs[i].rank else i + 1
  }

  lemma {:induction false} ScoreInList(cs: seq<Candidate>, id: Id, i: nat, k: nat)
    requires StandsAt(cs, id, i)
    ensures Score(ListEntries(cs), k, id) == 1.0 / (k + PlaceOf(cs, i)) as real
    ensures Seen(ListEntries(cs), id)
  {
    var es := ListEntries(cs);
    assert es[i] == Entry(id, PlaceOf(cs, i), cs[i].source);
    forall j | 0 <= j < |es| && es[j].id == id
      ensures j == i
    {
      assert cs[j].id == id;
    }
    SingleScore(es, k, id, i);
  }

  lemma {:induction false} NotSeen(cs: seq<Candidate>, id: Id)
    requires Absent(cs, id)
    ensures !Seen(ListEntries(cs), id)
  {}

  /** A chunk found by both searches, at ranks a and b, has the fused score 1/(60 + a) + 1/(60 + b) and the better of
      the two ranks. */
  lemma {:induction false} FoundByBoth(keyword: seq<Candidate>, vector: seq<Candidate>, ranking: seq<Candidate>,
    id: Id, i: nat, j: nat) returns (c: Candidate)
    requires IsRanking(Hybrid, keyword, vector, ranking)
    requires StandsAt(keyword, id, i) && StandsAt(vector, id, j)
    ensures var a, b := PlaceOf(keyword, i), PlaceOf(vector, j);
            && c in ranking && c.id == id
            && c.score == 1.0 / (60 + a) as real + 1.0 / (60 + b) as real
            && c.rank == if a <= b then a else b
    ensures keyword[i].source != vector[j].source ==>
              c.source == "hybrid" && c.sources == [keyword[i].source, vector[j].source]
  {
    hide Score, Best, Sources, Seen, ListEntries;
    var x, y := ListEntries(keyword), ListEntries(vector);
    EntriesOfTwo(keyword, vector);
    ScoreInList(keyword, id, i, 60);
    ScoreInList(vector, id, j, 60);
    ScoreConcat(x, y, 60, id);
    SeenInBoth(keyword, vector, id, i, j);
    c := Fused(x + y, 60, id);
  }

  lemma {:induction false} SeenInBoth(keyword: seq<Candidate>, vector: seq<Candidate>, id: Id, i: nat, j: nat)
    requires StandsAt(keyword, id, i) && StandsAt(vector, id, j)
    ensures var es, a, b :=
              ListEntries(keyword) + ListEntries(vector), PlaceOf(keyword, i), PlaceOf(vector, j);
            && Seen(es, id) && Best(es, id) == (if a <= b then a else b)
            && (keyword[i].source != vector[j].source ==>
                  Sources(es, id) == [keyword[i].source, vector[j].source])
  {
    var x, y := ListEntries(keyword), ListEntries(vector);
    var es := x + y;
    assert es[i] == x[i] && es[|x| + j] == y[j];
    assert Seen(es, id);
    forall m | 0 <= m < |es| && es[m].id == id
      ensures m == i || m == |x| + j
    {
      assert m < |x| ==> keyword[m].id == id;
      assert m >= |x| ==> vector[m - |x|].id == id;
    }
    hide Best;
    if keyword[i].source != vector[j].source {
      SourcesOfTwo(es, id, i, |x| + j);
    }
  }

  lemma {:induction false} SourcesOfTwo(es: seq<Entry>, id: Id, i: nat, j: nat)
    requires i < j < |es| && es[i].id == id && es[j].id == id && es[i].source != es[j].source
    requires forall m | 0 <= m < |es| && es[m].id == id :: m == i || m == j
    ensures Sources(es, id) == [es[i].source, es[j].source]
  {
    var n := |es| - 1;
    if j < n {
      SourcesOfTwo(es[..n], id, i, j);
    } else {
      SourcesOfOne(es[..n], id, i);
    }
  }

  lemma {:induction false} SourcesOfOne(es: seq<Entry>, id: Id, i: nat)
    requires i < |es| && es[i].id == id && forall m | 0 <= m < |es| && es[m].id == id :: m == i
    ensures Sources(es, id) == [es[i].source]
  {
    var n := |es| - 1;
    if i < n {
      SourcesOfOne(es[..n], id, i);
    } else {
      assert !Seen(es[..n], id);
      UnseenScore(es[..n], 0, id);
    }
  }

  /** A chunk found by one search only, at rank a, has the fused score 1/(60 + a), and keeps its rank and its source. */
  lemma {:induction false} FoundByOne(keyword: seq<Candidate>, vector: seq<Candidate>, ranking: seq<Candidate>,
    id: Id, i: nat, byKeyword: bool) returns (c: Candidate)
    requires IsRanking(Hybrid, keyword, vector, ranking)
    requires var (found, other) := if byKeyword then (keyword, vector) else (vector, keyword);
             StandsAt(found, id, i) && Absent(other, id)
    ensures var found := if byKeyword then keyword else vector;
            && c in ranking && c.id == id && c.score == 1.0 / (60 + PlaceOf(found, i)) as real
            && c.rank == PlaceOf(found, i) && c.source == found[i].source && c.sources == [found[i].source]
  {
    hide Score, Best, Sources;
    var x, y := ListEntries(keyword), ListEntries(vector);
    var found := if byKeyword then keyword else vector;
    EntriesOfTwo(keyword, vector);
    ScoreInList(found, id, i, 60);
    NotSeen(if byKeyword then vector else keyword, id);
    UnseenScore(if byKeyword then y else x, 60, id);
    ScoreConcat(x, y, 60, id);
    var es := x + y;
    var m := if byKeyword then i else |x| + i;
    assert es[m] == ListEntries(found)[i];
    forall n | 0 <= n < |es| && es[n].id == id
      ensures n == m
    {
      assert n < |x| ==> keyword[n].id == id;
      assert n >= |x| ==> vector[n - |x|].id == id;
    }
    assert Seen(es, id);
    SourcesOfOne(es, id, m);
    c := Fused(es, 60, id);
  }

  // --- From the searches to the answer ------------------------------------------------------------

  /** `places` lists the wanted positions in ascending order. */
  ghost predicate Ascending(places: seq<nat>, wanted: set<nat>) {
    && (forall p :: p in places <==> p in wanted)
    && forall i, j | 0 <= i < j < |places| :: places[i] < places[j]
  }

  /** The positions of these identifiers. */
  function Wanted(xs: seq<Id>, ids: set<Id>): set<nat> { set p: nat | p < |xs| && xs[p] in ids }

  lemma {:induction false} WantedSnoc(xs: seq<Id>, x: Id, ids: set<Id>)
    ensures Wanted(xs + [x], ids) == if x in ids then Wanted(xs, ids) + {|xs|} else Wanted(xs, ids)
    ensures forall p | p in Wanted(xs, ids) :: p < |xs|
  {
    var all := xs + [x];
    assert all[|xs|] == x;
    forall p: nat
      ensures p in Wanted(all, ids) <==> p in Wanted(xs, ids) || (x in ids && p == |xs|)
    {
      if p < |xs| {
        assert all[p] == xs[p];
      }
    }
  }

  lemma {:induction false} AscendingNext(places: seq<nat>, wanted: set<nat>, n: nat)
    requires Ascending(places, wanted) && forall p | p in wanted :: p < n
    ensures Ascending(places + [n], wanted + {n})
    ensures forall i | 0 <= i < |places| :: places[i] < n
  {
    forall i | 0 <= i < |places|
      ensures places[i] < n
    {
      assert places[i] in places;
    }
    forall p
      ensures p in places + [n] <==> p in wanted + {n}
    {
      assert p in places <==> p in wanted;
    }
  }

  lemma {:induction false} WantedNext(xs: seq<Id>, x: Id, ids: set<Id>, places: seq<nat>)
    requires Ascending(places, Wanted(xs, ids))
    ensures Ascending(if x in ids then places + [|xs|] else places, Wanted(xs + [x], ids))
    ensures forall i | 0 <= i < |places| :: places[i] < |xs|
  {
    hide Wanted, Ascending;
    WantedSnoc(xs, x, ids);
    AscendingNext(places, Wanted(xs, ids), |xs|);
  }

  /** The candidates at these places, in this order. */
  ghost predicate Selected(kept: seq<Candidate>, cs: seq<Candidate>, places: seq<nat>) {
    |kept| == |places| && forall i | 0 <= i < |places| :: places[i] < |cs| && kept[i] == cs[places[i]]
  }

  lemma {:induction false} SelectedNext(kept: seq<Candidate>, cs: seq<Candidate>, places: seq<nat>, c: Candidate)
    requires Selected(kept, cs, places)
    ensures Selected(kept, cs + [c], places) && Selected(kept + [c], cs + [c], places + [|cs|])
  {}

  lemma IdsSnoc(cs: seq<Candidate>, c: Candidate)
    ensures Ids(cs + [c]) == Ids(cs) + [c.id] && |Ids(cs)| == |cs|
  {}

  /** The candidates kept are exactly those with one of the identifiers, in order. */
  lemma {:induction false} KeptPlaces(cs: seq<Candidate>, ids: set<Id>) returns (places: seq<nat>)
    ensures Ascending(places, Wanted(Ids(cs), ids)) && Selected(Kept(cs, ids), cs, places)
  {
    hide Ascending, Wanted, Kept, Selected, Ids;
    if cs == [] {
      places := [];
      NothingWanted(ids);
    } else {
      var n := |cs| - 1;
      var front := cs[..n];
      places := KeptPlaces(front, ids);
      IdsSnoc(front, cs[n]);
      assert cs == front + [cs[n]];
      WantedNext(Ids(front), cs[n].id, ids, places);
      SelectedNext(Kept(front, ids), front, places, cs[n]);
      KeptNext(cs, n, ids);
      assert cs[..n + 1] == cs;
      places := if cs[n].id in ids then places + [n] else places;
    }
  }

  lemma NothingWanted(ids: set<Id>)
    ensures Ascending([], Wanted(Ids([]), ids)) && Selected(Kept([], ids), [], [])
  {}

  /** A hit as a candidate. */
  function HitCandidates(hits: seq<Hit>): (cs: seq<Candidate>)
    ensures |cs| == |hits|
  {
    seq(|hits|, i requires 0 <= i < |hits| => Candidate(hits[i].id, "vector", hits[i].rank, hits[i].score, []))
  }

  /** The vector candidates are exactly the hits on allowed chunks, in order, each with its identifier, rank and
      score. */
  lemma {:induction false} HitsKept(hits: seq<Hit>, allowed: set<Id>) returns (places: seq<nat>)
    ensures Ascending(places, Wanted(Ids(HitCandidates(hits)), allowed))
    ensures Selected(HitsWithin(hits, allowed), HitCandidates(hits), places)
  {
    HitsAreKept(hits, allowed);
    places := KeptPlaces(HitCandidates(hits), allowed);
  }

  lemma {:induction false} HitsAreKept(hits: seq<Hit>, allowed: set<Id>)
    ensures HitsWithin(hits, allowed) == Kept(HitCandidates(hits), allowed)
  {
    if hits != [] {
      var n := |hits| - 1;
      HitsAreKept(hits[..n], allowed);
      assert HitCandidates(hits)[..n] == HitCandidates(hits[..n]);
    }
  }

  /** The candidate is a scanned row that no access entry blocks. */
  predicate MayRead(
    db: Db, acl: set<AclEntry>, project: Id, subjects: set<string>, rows: seq<Id>, c: Candidate) {
    c.id in rows && c.id in db.chunks && !Blocked(acl, project, db.chunks[c.id], c.id, subjects)
  }

  /** An answer lists, in their order, exactly those of the first `topK` reranked candidates that may be read, each with
      its score and source. */
  lemma {:induction false} AnswerLists(
    db: Db, acl: set<AclEntry>, project: Id, subjects: set<string>, request: Request, rerank: Reranker,
    vectorHits: Option<seq<Hit>>, rows: seq<Id>, records: map<Id, Record>, keyword: seq<Candidate>,
    ranking: seq<Candidate>, response: Response) returns (places: seq<nat>)
    requires Explains(
               db, acl, project, subjects, request, rerank, vectorHits, rows, records, keyword, ranking, response)
    ensures var cs, results := rerank(request.query, ranking), response.results;
            && Ascending(places, set p: nat |
                 p < |cs| && p < request.topK && MayRead(db, acl, project, subjects, rows, cs[p]))
            && |results| == |places|
            && forall i | 0 <= i < |places| ::
                 && places[i] < |cs| && results[i].id == cs[places[i]].id
                 && results[i].score == cs[places[i]].score && results[i].source == cs[places[i]].source
  {
    hide IsScan, IsKeywordRanking, IsRanking, CanRead, Blocked, Recorded, Kept;
    var cs := rerank(request.query, ranking);
    var top := Top(cs, request.topK);
    places := KeptPlaces(top, records.Keys);
    forall p: nat | p < |top|
      ensures top[p] == cs[p]
      ensures top[p].id in records.Keys <==> MayRead(db, acl, project, subjects, rows, cs[p])
    {
      if cs[p].id in db.chunks {
        CanReadIff(acl, project, db.chunks[cs[p].id], cs[p].id, subjects);
      }
    }
    assert Wanted(Ids(top), records.Keys)
        == set p: nat | p < |cs| && p < request.topK && MayRead(db, acl, project, subjects, rows, cs[p]);
  }
}
