/** Retrieval over the knowledge tables: the active-row query, the access check, ranking and the recheck. */
module Retrieval {
  import opened Common
  import opened Characters
  import opened Tokenizer
  import opened Chunking
  import opened KnowledgeState
  import opened KnowledgeLifecycle
  import opened RankFusion

  datatype Scope = BaseScope | DocumentScope | ChunkScope

  datatype AclEntry = AclEntry(project: Id, scope: Scope, target: Id, subject: string, permitsRead: bool, active: bool)

  datatype Mode = Keyword | Vector | Hybrid

  datatype Request = Request(
    query: string, mode: Mode, topK: nat, candidateLimit: nat,
    bases: set<Id>, classifications: set<string>, environments: set<string>)

  datatype Hit = Hit(id: Id, rank: nat, score: real)

  datatype Record = Record(id: Id, chunk: Chunk, document: Document, version: Version)

  datatype Result = Result(
    id: Id, ref: string, parent: Option<Id>, score: real, source: string, document: Id, documentVersion: nat)

  datatype Response = Response(results: seq<Result>, deniedCount: int, prefilterCount: nat)

  // --- The active-row query ---------------------------------------------------

  predicate IsActiveRow(db: Db, project: Id, request: Request, id: Id) {
    && id in db.chunks
    && (var c := db.chunks[id];
        && c.project == project && c.kind == Child
        && c.status == Active && !c.isDeleted && c.indexStatus != IndexDeleted
        && c.document in db.documents && c.version in db.versions
        && (var d, v := db.documents[c.document], db.versions[c.version];
            && d.key.project == project && d.status == Active && !d.isDeleted
            && v.project == project && v.status == Active && !v.isDeleted && v.ingestion == Ready)
        && (request.bases != {} ==> c.base in request.bases)
        && (request.classifications != {} ==> c.classification in request.classifications)
        && (request.environments != {} ==> c.environment in request.environments))
  }

  /** `rows` answers the query: active rows in ordinal order, the first `candidateLimit` of them. */
  ghost predicate IsScan(db: Db, project: Id, request: Request, rows: seq<Id>) {
    && (forall i | 0 <= i < |rows| :: IsActiveRow(db, project, request, rows[i]))
    && Distinct(rows)
    && (forall i, j | 0 <= i < j < |rows| :: db.chunks[rows[i]].ordinal <= db.chunks[rows[j]].ordinal)
    && |rows| <= request.candidateLimit
    && (forall id | IsActiveRow(db, project, request, id) && id !in rows ::
          |rows| == request.candidateLimit
          && forall i | 0 <= i < |rows| :: db.chunks[rows[i]].ordinal <= db.chunks[id].ordinal)
  }

  method SmallestOrdinal(db: Db, ids: set<Id>) returns (id: Id)
    requires ids != {} && ids <= db.chunks.Keys
    ensures id in ids && forall x | x in ids :: db.chunks[id].ordinal <= db.chunks[x].ordinal
  {
    id :| id in ids;
    var todo := ids - {id};
    while todo != {}
      invariant todo <= ids && id in ids
      invariant forall x | x in ids && x !in todo :: db.chunks[id].ordinal <= db.chunks[x].ordinal
      decreases todo
    {
      var x :| x in todo;
      if db.chunks[x].ordinal < db.chunks[id].ordinal {
        id := x;
      }
      todo := todo - {x};
    }
  }

  method LoadActiveChunkRows(db: Db, project: Id, request: Request) returns (rows: seq<Id>)
    ensures IsScan(db, project, request, rows)
  {
    hide IsActiveRow;
    ActiveRowsExist(db, project, request);
    var matching := set id | id in db.chunks && IsActiveRow(db, project, request, id);
    var todo := matching;
    rows := [];
    while todo != {} && |rows| < request.candidateLimit
      invariant todo <= matching
      invariant forall id :: id in rows <==> id in matching && id !in todo
      invariant Distinct(rows) && |rows| <= request.candidateLimit
      invariant forall i | 0 <= i < |rows| :: rows[i] in rows && rows[i] in matching
      invariant forall i, j | 0 <= i < j < |rows| :: db.chunks[rows[i]].ordinal <= db.chunks[rows[j]].ordinal
      invariant forall i, id | 0 <= i < |rows| && id in todo :: db.chunks[rows[i]].ordinal <= db.chunks[id].ordinal
      decreases todo
    {
      var id := SmallestOrdinal(db, todo);
      rows := rows + [id];
      todo := todo - {id};
    }
    assert forall i | 0 <= i < |rows| :: rows[i] in rows;
  }

  lemma {:induction false} ActiveRowsExist(db: Db, project: Id, request: Request)
    ensures forall id: Id :: IsActiveRow(db, project, request, id) ==> id in db.chunks
  {}

  function RecordOf(db: Db, id: Id): Record
    requires id in db.chunks && db.chunks[id].document in db.documents && db.chunks[id].version in db.versions
  {
    var c := db.chunks[id];
    Record(id, c, db.documents[c.document], db.versions[c.version])
  }

  // --- Access -----------------------------------------------------------------

  predicate ScopeReadable(acl: set<AclEntry>, project: Id, scope: Scope, target: Id, subjects: set<string>) {
    var entries := set e | e in acl && e.project == project && e.scope == scope && e.target == target
                           && e.permitsRead && e.active;
    entries == {} || exists e :: e in entries && e.subject in subjects
  }

  /** Readable at the knowledge base, the document and the chunk. */
  predicate CanRead(acl: set<AclEntry>, project: Id, c: Chunk, id: Id, subjects: set<string>) {
    && ScopeReadable(acl, project, BaseScope, c.base, subjects)
    && ScopeReadable(acl, project, DocumentScope, c.document, subjects)
    && ScopeReadable(acl, project, ChunkScope, id, subjects)
  }

  /** More subjects never lose access. */
  lemma {:induction false} CanReadMonotone(
    acl: set<AclEntry>, project: Id, c: Chunk, id: Id, subjects: set<string>, more: set<string>)
    requires subjects <= more && CanRead(acl, project, c, id, subjects)
    ensures CanRead(acl, project, c, id, more)
  {
    ScopeMonotone(acl, project, BaseScope, c.base, subjects, more);
    ScopeMonotone(acl, project, DocumentScope, c.document, subjects, more);
    ScopeMonotone(acl, project, ChunkScope, id, subjects, more);
  }

  lemma {:induction false} ScopeMonotone(
    acl: set<AclEntry>, project: Id, scope: Scope, target: Id, subjects: set<string>, more: set<string>)
    requires subjects <= more && ScopeReadable(acl, project, scope, target, subjects)
    ensures ScopeReadable(acl, project, scope, target, more)
  {
    var entries := set e | e in acl && e.project == project && e.scope == scope && e.target == target
                           && e.permitsRead && e.active;
    if entries != {} {
      var e :| e in entries && e.subject in subjects;
      assert e.subject in more;
    }
  }

  /** An active read entry of the project on the chunk's base, on its document or on the chunk itself. */
  predicate Guards(e: AclEntry, project: Id, c: Chunk, id: Id) {
    && e.project == project && e.permitsRead && e.active
    && match e.scope
       case BaseScope => e.target == c.base
       case DocumentScope => e.target == c.document
       case ChunkScope => e.target == id
  }

  /** Some entry guards the chunk, and none that guards it at the same scope names one of the subjects. */
  predicate Blocked(acl: set<AclEntry>, project: Id, c: Chunk, id: Id, subjects: set<string>) {
    exists e :: e in acl && Guards(e, project, c, id)
                && forall f | f in acl && f.scope == e.scope && Guards(f, project, c, id) :: f.subject !in subjects
  }

  /** A chunk is readable exactly when no entry blocks it. */
  lemma {:induction false} CanReadIff(acl: set<AclEntry>, project: Id, c: Chunk, id: Id, subjects: set<string>)
    ensures CanRead(acl, project, c, id, subjects) <==> !Blocked(acl, project, c, id, subjects)
  {
    hide ScopeReadable, Guards;
    ScopeReadableIff(acl, project, BaseScope, c, id, subjects);
    ScopeReadableIff(acl, project, DocumentScope, c, id, subjects);
    ScopeReadableIff(acl, project, ChunkScope, c, id, subjects);
    if Blocked(acl, project, c, id, subjects) {
      var e :| e in acl && Guards(e, project, c, id)
               && forall f | f in acl && f.scope == e.scope && Guards(f, project, c, id) :: f.subject !in subjects;
      assert e.scope in {BaseScope, DocumentScope, ChunkScope};
    }
  }

  function TargetOf(scope: Scope, c: Chunk, id: Id): Id {
    match scope
    case BaseScope => c.base
    case DocumentScope => c.document
    case ChunkScope => id
  }

  lemma {:induction false} ScopeReadableIff(
    acl: set<AclEntry>, project: Id, scope: Scope, c: Chunk, id: Id, subjects: set<string>)
    ensures ScopeReadable(acl, project, scope, TargetOf(scope, c, id), subjects) <==>
            ((forall e | e in acl :: !(e.scope == scope && Guards(e, project, c, id)))
             || exists f :: f in acl && f.scope == scope && Guards(f, project, c, id) && f.subject in subjects)
  {
    var target := TargetOf(scope, c, id);
    var entries := set e | e in acl && e.project == project && e.scope == scope && e.target == target
                           && e.permitsRead && e.active;
    assert forall e :: e in entries <==> e in acl && e.scope == scope && Guards(e, project, c, id);
  }

  /** The rows of a scan that the subjects may read. */
  function Allowed(db: Db, acl: set<AclEntry>, project: Id, subjects: set<string>, rows: seq<Id>): set<Id> {
    set id | id in rows && id in db.chunks && CanRead(acl, project, db.chunks[id], id, subjects)
  }

  /** More subjects never shrink what a scan may return. */
  lemma {:induction false} AllowedMonotone(
    db: Db, acl: set<AclEntry>, project: Id, subjects: set<string>, more: set<string>, rows: seq<Id>)
    requires subjects <= more
    ensures Allowed(db, acl, project, subjects, rows) <= Allowed(db, acl, project, more, rows)
  {
    forall id | id in Allowed(db, acl, project, subjects, rows)
      ensures id in Allowed(db, acl, project, more, rows)
    {
      CanReadMonotone(acl, project, db.chunks[id], id, subjects, more);
    }
  }

  /** The rows of a scan that an entry blocks. */
  function BlockedRows(db: Db, acl: set<AclEntry>, project: Id, subjects: set<string>, rows: seq<Id>): set<Id> {
    set id | id in rows && id in db.chunks && Blocked(acl, project, db.chunks[id], id, subjects)
  }

  /** Every row is allowed or blocked. */
  lemma {:induction false} AllowedOrBlocked(
    db: Db, acl: set<AclEntry>, project: Id, subjects: set<string>, rows: seq<Id>)
    requires Distinct(rows) && forall i | 0 <= i < |rows| :: rows[i] in db.chunks
    ensures |Allowed(db, acl, project, subjects, rows)| + |BlockedRows(db, acl, project, subjects, rows)| == |rows|
    ensures forall id | id in Allowed(db, acl, project, subjects, rows) ::
              id in db.chunks && !Blocked(acl, project, db.chunks[id], id, subjects)
  {
    hide CanRead, Blocked;
    var a, b := Allowed(db, acl, project, subjects, rows), BlockedRows(db, acl, project, subjects, rows);
    var all := set i | 0 <= i < |rows| :: rows[i];
    forall id
      ensures id in all <==> id in a || id in b
      ensures !(id in a && id in b)
      ensures id in a ==> id in db.chunks && !Blocked(acl, project, db.chunks[id], id, subjects)
    {
      if id in db.chunks {
        CanReadIff(acl, project, db.chunks[id], id, subjects);
      }
    }
    assert a + b == all && a * b == {};
    DistinctSize(rows);
  }

  lemma {:induction false} DistinctSize(rows: seq<Id>)
    requires Distinct(rows)
    ensures |set i | 0 <= i < |rows| :: rows[i]| == |rows|
  {
    if rows != [] {
      var n := |rows| - 1;
      DistinctSize(rows[..n]);
      var front := set i | 0 <= i < n :: rows[..n][i];
      assert (set i | 0 <= i < |rows| :: rows[i]) == front + {rows[n]};
    }
  }

  // --- Keyword ranking ----------------------------------------------------------

  /** The lower-cased tokens that are words or Han characters. */
  function Terms(text: string): set<string> {
    set t | t in Tokens(text) && t != "" && KindOf(t[0]) in {Word, Han} :: Lower(t)
  }

  function SearchText(r: Record): string {
    Join(" ", [r.chunk.preview, r.document.title, r.document.key.ref, r.chunk.ref])
  }

  function KeywordScore(query: string, r: Record): nat {
    |Terms(query) * Terms(SearchText(r))|
  }

  /** The keyword candidate of a record before ranks are assigned. */
  function Scored(query: string, r: Record): Candidate {
    Candidate(r.id, "keyword", 0, KeywordScore(query, r) as real, [])
  }

  function Unranked(cs: seq<Candidate>): (us: seq<Candidate>)
    ensures |us| == |cs| && forall i | 0 <= i < |cs| :: us[i] == cs[i].(rank := 0)
  {
    seq(|cs|, i requires 0 <= i < |cs| => cs[i].(rank := 0))
  }

  predicate KeyedById(records: map<Id, Record>) { forall id | id in records :: records[id].id == id }

  /** `cs` ranks the records with a positive score, best first, ties by identifier, ranks counting from 1. */
  ghost predicate IsKeywordRanking(query: string, records: map<Id, Record>, cs: seq<Candidate>) {
    && (forall i | 0 <= i < |cs| :: cs[i].rank == i + 1)
    && Sorted(Unranked(cs))
    && (forall c :: c in Unranked(cs) <==>
          c.id in records && c == Scored(query, records[c.id]) && KeywordScore(query, records[c.id]) > 0)
  }

  method RankKeywordCandidates(query: string, records: map<Id, Record>) returns (ranked: seq<Candidate>)
    requires KeyedById(records)
    ensures IsKeywordRanking(query, records, ranked)
  {
    hide KeywordScore, Insert;
    var scored: seq<Candidate> := [];
    var todo := records.Keys;
    while todo != {}
      invariant todo <= records.Keys && Sorted(scored)
      invariant forall c :: c in scored <==>
                  c.id in records && c.id !in todo && c == Scored(query, records[c.id])
                    && KeywordScore(query, records[c.id]) > 0
      decreases todo
    {
      var id :| id in todo;
      var score := KeywordScore(query, records[id]);
      if score > 0 {
        var c := Candidate(id, "keyword", 0, score as real, []);
        assert c == Scored(query, records[id]);
        InsertSorted(c, scored);
        scored := Insert(c, scored);
      }
      todo := todo - {id};
    }
    ranked := seq(|scored|, i requires 0 <= i < |scored| => scored[i].(rank := i + 1));
    assert forall i | 0 <= i < |scored| :: scored[i] in scored;
    assert Unranked(ranked) == scored;
  }

  /** The keyword ranking is determined by the query and the records. */
  lemma {:induction false} KeywordRankingUnique(
    query: string, records: map<Id, Record>, a: seq<Candidate>, b: seq<Candidate>)
    requires IsKeywordRanking(query, records, a) && IsKeywordRanking(query, records, b)
    ensures a == b
  {
    hide KeywordScore;
    SortedUnique(Unranked(a), Unranked(b));
    forall i | 0 <= i < |a|
      ensures a[i] == b[i]
    {
      assert Unranked(a)[i] == Unranked(b)[i];
      assert a[i] == Unranked(a)[i].(rank := i + 1);
      assert b[i] == Unranked(b)[i].(rank := i + 1);
    }
  }

  lemma {:induction false} KeywordRankingRanked(query: string, records: map<Id, Record>, cs: seq<Candidate>)
    requires IsKeywordRanking(query, records, cs)
    ensures Ranked(cs)
    ensures forall i | 0 <= i < |cs| :: cs[i].id in records
  {
    hide KeywordScore;
    var us := Unranked(cs);
    forall i | 0 <= i < |cs|
      ensures cs[i].id in records
    {
      assert us[i] in us;
    }
    forall i, j | 0 <= i < j < |cs|
      ensures cs[i].id != cs[j].id
    {
      assert us[i] in us && us[j] in us && Before(us[i], us[j]);
    }
  }

  /** Hybrid mode without vector hits returns the same chunks in the same order as keyword mode. */
  lemma {:induction false} HybridWithoutHits(
    query: string, records: map<Id, Record>, keyword: seq<Candidate>, again: seq<Candidate>, fused: seq<Candidate>,
    k: nat)
    requires IsKeywordRanking(query, records, keyword) && IsKeywordRanking(query, records, again)
    requires IsFusion(Entries([again, []]), k, fused)
    ensures Ids(fused) == Ids(keyword)
  {
    hide IsKeywordRanking, IsFusion;
    KeywordRankingUnique(query, records, keyword, again);
    KeywordRankingRanked(query, records, keyword);
    FusingWithNothing(keyword, k, fused);
  }

  // --- The query ----------------------------------------------------------------

  /** What every returned result is: a child chunk of its document's current version that no access entry blocks. */
  ghost predicate Servable(
    db: Db, acl: set<AclEntry>, project: Id, request: Request, subjects: set<string>, r: Result) {
    && IsActiveRow(db, project, request, r.id)
    && (var c := db.chunks[r.id];
        && r.ref == c.ref && r.parent == c.parent && r.document == c.document
        && !Blocked(acl, project, c, r.id, subjects)
        && r.documentVersion == db.documents[c.document].currentVersion == db.versions[c.version].number)
  }

  lemma {:induction false} ActiveRowIsCurrent(db: Db, project: Id, request: Request, id: Id)
    requires Inv(db) && IsActiveRow(db, project, request, id)
    ensures var c := db.chunks[id];
            db.versions[c.version].number == db.documents[c.document].currentVersion
              && db.versions[c.version].document == c.document
  {
    assert ChunkOk(db, db.chunks[id]);
    assert VersionOk(db, db.versions[db.chunks[id].version]);
  }

  const RANK_CONSTANT: nat := 60

  /** The hits on allowed chunks, in the order of the search. */
  function HitsWithin(hits: seq<Hit>, allowed: set<Id>): (cs: seq<Candidate>)
    ensures forall c | c in cs :: c.id in allowed
    ensures |cs| <= |hits|
  {
    if hits == [] then []
    else
      var last := hits[|hits| - 1];
      HitsWithin(hits[..|hits| - 1], allowed) +
      if last.id in allowed then [Candidate(last.id, "vector", last.rank, last.score, [])] else []
  }

  method VectorCandidates(hits: seq<Hit>, allowed: set<Id>) returns (cs: seq<Candidate>)
    ensures cs == HitsWithin(hits, allowed)
  {
    cs := [];
    for i := 0 to |hits|
      invariant cs == HitsWithin(hits[..i], allowed)
    {
      assert hits[..i + 1][..i] == hits[..i];
      if hits[i].id in allowed {
        cs := cs + [Candidate(hits[i].id, "vector", hits[i].rank, hits[i].score, [])];
      }
    }
    assert hits[..|hits|] == hits;
  }

  /** A keyword query asks no vector search, and a failed search has no hits. */
  function VectorOf(mode: Mode, vectorHits: Option<seq<Hit>>, allowed: set<Id>): seq<Candidate> {
    if mode.Keyword? || vectorHits.None? then [] else HitsWithin(vectorHits.value, allowed)
  }

  /** The candidates a mode serves, from the keyword and vector candidates. */
  ghost predicate IsRanking(mode: Mode, keyword: seq<Candidate>, vector: seq<Candidate>, ranking: seq<Candidate>) {
    match mode
    case Keyword => ranking == keyword
    case Vector => ranking == vector
    case Hybrid => IsFusion(Entries([keyword, vector]), RANK_CONSTANT, ranking)
  }

  lemma {:induction false} FusionOf(
    keyword: seq<Candidate>, vector: seq<Candidate>, k: nat, fused: seq<Candidate>, ids: set<Id>)
    requires IsFusion(Entries([keyword, vector]), k, fused)
    requires forall c | c in keyword || c in vector :: c.id in ids
    ensures forall c | c in fused :: c.id in ids
  {
    hide Fused;
    EntriesOfTwo(keyword, vector);
    var es := Entries([keyword, vector]);
    forall c | c in fused
      ensures c.id in ids
    {
      var i :| 0 <= i < |es| && es[i].id == c.id;
      if i < |keyword| {
        assert es[i] == ListEntries(keyword)[i] && keyword[i] in keyword;
      } else {
        assert es[i] == ListEntries(vector)[i - |keyword|] && vector[i - |keyword|] in vector;
      }
    }
  }

  lemma {:induction false} EntriesOfTwo(a: seq<Candidate>, b: seq<Candidate>)
    ensures Entries([a, b]) == ListEntries(a) + ListEntries(b)
  {
    assert [a, b][1..] == [b] && [b][1..] == [];
    assert Entries([b]) == ListEntries(b) + Entries([]);
  }

  lemma {:induction false} NothingAllowed(db: Db, acl: set<AclEntry>, project: Id, subjects: set<string>)
    ensures Allowed(db, acl, project, subjects, []) == {}
  {}

  lemma {:induction false} AllowedNext(
    db: Db, acl: set<AclEntry>, project: Id, subjects: set<string>, rows: seq<Id>, i: nat)
    requires Distinct(rows) && i < |rows| && rows[i] in db.chunks
    ensures rows[i] !in Allowed(db, acl, project, subjects, rows[..i])
    ensures Allowed(db, acl, project, subjects, rows[..i + 1]) ==
            Allowed(db, acl, project, subjects, rows[..i]) +
            if CanRead(acl, project, db.chunks[rows[i]], rows[i], subjects) then {rows[i]} else {}
  {
    hide CanRead;
    assert rows[..i + 1] == rows[..i] + [rows[i]];
  }

  predicate InDb(db: Db, rows: seq<Id>) {
    forall i | 0 <= i < |rows| ::
      && rows[i] in db.chunks
      && db.chunks[rows[i]].document in db.documents && db.chunks[rows[i]].version in db.versions
  }

  /** `records` are those of the first `i` rows that the subjects may read, `denied` counts the others. */
  ghost predicate Filtered(
    db: Db, acl: set<AclEntry>, project: Id, subjects: set<string>, rows: seq<Id>, i: nat,
    records: map<Id, Record>, denied: int)
    requires i <= |rows| && InDb(db, rows)
  {
    && records.Keys == Allowed(db, acl, project, subjects, rows[..i])
    && (forall id | id in records :: id in rows && id in db.chunks && records[id] == RecordOf(db, id))
    && denied + |records| == i
  }

  lemma {:induction false} FilteredNone(db: Db, acl: set<AclEntry>, project: Id, subjects: set<string>, rows: seq<Id>)
    requires InDb(db, rows)
    ensures Filtered(db, acl, project, subjects, rows, 0, map[], 0)
  {
    hide CanRead, Allowed, RecordOf;
    NothingAllowed(db, acl, project, subjects);
    assert rows[..0] == [];
  }

  lemma {:induction false} FilterKeeps(
    db: Db, acl: set<AclEntry>, project: Id, subjects: set<string>, rows: seq<Id>, i: nat,
    records: map<Id, Record>, denied: int)
    requires Distinct(rows) && InDb(db, rows) && i < |rows|
    requires Filtered(db, acl, project, subjects, rows, i, records, denied)
    requires CanRead(acl, project, db.chunks[rows[i]], rows[i], subjects)
    ensures Filtered(db, acl, project, subjects, rows, i + 1, records[rows[i] := RecordOf(db, rows[i])], denied)
  {
    hide CanRead, Allowed, RecordOf;
    AllowedNext(db, acl, project, subjects, rows, i);
    hide Distinct;
    OneMoreRecord(records, rows[i], RecordOf(db, rows[i]));
  }

  lemma {:induction false} FilterDenies(
    db: Db, acl: set<AclEntry>, project: Id, subjects: set<string>, rows: seq<Id>, i: nat,
    records: map<Id, Record>, denied: int)
    requires Distinct(rows) && InDb(db, rows) && i < |rows|
    requires Filtered(db, acl, project, subjects, rows, i, records, denied)
    requires !CanRead(acl, project, db.chunks[rows[i]], rows[i], subjects)
    ensures Filtered(db, acl, project, subjects, rows, i + 1, records, denied + 1)
  {
    hide CanRead, Allowed, RecordOf;
    AllowedNext(db, acl, project, subjects, rows, i);
    hide Distinct;
  }

  lemma {:induction false} FilteredAll(
    db: Db, acl: set<AclEntry>, project: Id, subjects: set<string>, rows: seq<Id>,
    records: map<Id, Record>, denied: int)
    requires InDb(db, rows) && Filtered(db, acl, project, subjects, rows, |rows|, records, denied)
    ensures records.Keys == Allowed(db, acl, project, subjects, rows)
    ensures forall id | id in records :: id in rows && id in db.chunks && records[id] == RecordOf(db, id)
    ensures denied == |rows| - |records|
  {
    hide CanRead, Allowed, RecordOf;
    assert rows[..|rows|] == rows;
  }

  /** The prefilter: keeps the records the subjects may read and counts the others. */
  method Prefilter(db: Db, acl: set<AclEntry>, project: Id, subjects: set<string>, rows: seq<Id>)
    returns (records: map<Id, Record>, deniedCount: int)
    requires Distinct(rows) && InDb(db, rows)
    ensures records.Keys == Allowed(db, acl, project, subjects, rows)
    ensures forall id | id in records :: id in rows && id in db.chunks && records[id] == RecordOf(db, id)
    ensures forall id | id in records :: !Blocked(acl, project, db.chunks[id], id, subjects)
    ensures deniedCount == |BlockedRows(db, acl, project, subjects, rows)| == |rows| - |records|
  {
    hide CanRead, Allowed, RecordOf, Filtered, Distinct, Blocked, BlockedRows;
    records, deniedCount := map[], 0;
    FilteredNone(db, acl, project, subjects, rows);
    for i := 0 to |rows|
      invariant Filtered(db, acl, project, subjects, rows, i, records, deniedCount)
    {
      var id := rows[i];
      if CanRead(acl, project, db.chunks[id], id, subjects) {
        FilterKeeps(db, acl, project, subjects, rows, i, records, deniedCount);
        records := records[id := RecordOf(db, id)];
      } else {
        FilterDenies(db, acl, project, subjects, rows, i, records, deniedCount);
        deniedCount := deniedCount + 1;
      }
    }
    FilteredAll(db, acl, project, subjects, rows, records, deniedCount);
    AllowedOrBlocked(db, acl, project, subjects, rows);
    assert |records| == |records.Keys|;
  }

  lemma OneMoreRecord(records: map<Id, Record>, id: Id, r: Record)
    requires id !in records
    ensures records[id := r].Keys == records.Keys + {id} && |records[id := r]| == |records| + 1
  {
    assert records[id := r].Keys == records.Keys + {id};
    assert |records.Keys + {id}| == |records.Keys| + 1;
  }

  /** The recheck after fusion. The records were all readable, so nothing more is denied. */
  method Recheck(
    db: Db, acl: set<AclEntry>, project: Id, subjects: set<string>, records: map<Id, Record>,
    fused: seq<Candidate>, denied: int) returns (rechecked: seq<Candidate>, deniedCount: int)
    requires forall id | id in records :: records[id].id == id && CanRead(acl, project, records[id].chunk, id, subjects)
    requires forall c | c in fused :: c.id in records
    ensures rechecked == fused && deniedCount == denied
  {
    hide CanRead;
    rechecked, deniedCount := [], denied;
    for i := 0 to |fused|
      invariant rechecked == fused[..i] && deniedCount == denied
    {
      var candidate := fused[i];
      assert candidate in fused;
      if candidate.id !in records {
        deniedCount := deniedCount + 1;
        continue;
      }
      if CanRead(acl, project, records[candidate.id].chunk, candidate.id, subjects) {
        rechecked := rechecked + [candidate];
      } else {
        deniedCount := deniedCount + 1;
      }
    }
  }

  predicate Recorded(db: Db, records: map<Id, Record>, id: Id)
    requires id in records
  {
    && id in db.chunks && db.chunks[id].document in db.documents && db.chunks[id].version in db.versions
    && records[id] == RecordOf(db, id)
  }

  type Reranker = (string, seq<Candidate>) -> seq<Candidate>

  function Top(cs: seq<Candidate>, k: nat): seq<Candidate> { if |cs| <= k then cs else cs[..k] }

  /** The candidates that have a record, in order: a reranker may return others. */
  function Kept(cs: seq<Candidate>, ids: set<Id>): (kept: seq<Candidate>)
    ensures |kept| <= |cs| && forall c | c in kept :: c in cs && c.id in ids
  {
    if cs == [] then []
    else Kept(cs[..|cs| - 1], ids) + if cs[|cs| - 1].id in ids then [cs[|cs| - 1]] else []
  }

  predicate Shown(results: seq<Result>, cs: seq<Candidate>) {
    && |results| == |cs|
    && forall i | 0 <= i < |results| ::
         results[i].id == cs[i].id && results[i].score == cs[i].score && results[i].source == cs[i].source
  }

  /** How an answer comes about: a scan, its readable records, the ranking of the mode, and what is left of its reranked
      first `topK` candidates. */
  ghost predicate Explains(
    db: Db, acl: set<AclEntry>, project: Id, subjects: set<string>, request: Request, rerank: Reranker,
    vectorHits: Option<seq<Hit>>, rows: seq<Id>, records: map<Id, Record>, keyword: seq<Candidate>,
    ranking: seq<Candidate>,
    response: Response) {
    && IsScan(db, project, request, rows)
    && records.Keys == Allowed(db, acl, project, subjects, rows)
    && (forall id | id in records :: Recorded(db, records, id))
    && (if request.mode.Vector? then keyword == [] else IsKeywordRanking(request.query, records, keyword))
    && IsRanking(request.mode, keyword, VectorOf(request.mode, vectorHits, records.Keys), ranking)
    && Shown(response.results, Kept(Top(rerank(request.query, ranking), request.topK), records.Keys))
    && response.prefilterCount == |rows|
    && response.deniedCount == |rows| - |records|
  }

  method Query(db: Db, acl: set<AclEntry>, project: Id, subjects: set<string>, request: Request, rerank: Reranker,
    vectorHits: Option<seq<Hit>>)
    returns (response: Response)
    requires Inv(db)
    ensures |response.results| <= request.topK
    ensures forall i | 0 <= i < |response.results| :: Servable(db, acl, project, request, subjects, response.results[i])
    ensures 0 <= response.deniedCount <= response.prefilterCount <= request.candidateLimit
    ensures exists rows :: IsScan(db, project, request, rows) && response.prefilterCount == |rows|
                           && response.deniedCount == |BlockedRows(db, acl, project, subjects, rows)|
    ensures exists rows, records, keyword, ranking ::
              Explains(
                db, acl, project, subjects, request, rerank, vectorHits, rows, records, keyword, ranking, response)
  {
    hide Inv, IsActiveRow, CanRead, Blocked, BlockedRows, IsRanking, IsKeywordRanking, Kept;
    var rows := LoadActiveChunkRows(db, project, request);
    RowsJoin(db, project, request, rows);
    var records, denied := Prefilter(db, acl, project, subjects, rows);
    var keyword, fused := Rank(request, records, vectorHits);
    var rechecked, deniedCount := Recheck(db, acl, project, subjects, records, fused, denied);
    var reranked := rerank(request.query, rechecked);
    var selected := if |reranked| <= request.topK then reranked else reranked[..request.topK];
    var results := BuildResults(db, acl, project, subjects, request, selected, records);
    response := Response(results, deniedCount, |rows|);
    AllowedCount(db, acl, project, subjects, rows);
    assert |records| == |records.Keys|;
    hide IsScan, Servable, Allowed;
    assert Explains(db, acl, project, subjects, request, rerank, vectorHits, rows, records, keyword, fused, response);
  }

  /** The candidates of the mode: keyword, vector, or both fused. */
  method Rank(request: Request, records: map<Id, Record>, vectorHits: Option<seq<Hit>>)
    returns (keyword: seq<Candidate>, fused: seq<Candidate>)
    requires KeyedById(records)
    ensures if request.mode.Vector? then keyword == [] else IsKeywordRanking(request.query, records, keyword)
    ensures IsRanking(request.mode, keyword, VectorOf(request.mode, vectorHits, records.Keys), fused)
    ensures forall c | c in fused :: c.id in records
  {
    hide IsFusion, KeywordScore;
    keyword := [];
    if request.mode != Vector {
      keyword := RankKeywordCandidates(request.query, records);
      KeywordRankingRanked(request.query, records, keyword);
    }
    var vector: seq<Candidate> := [];
    if request.mode != Keyword && vectorHits.Some? {
      vector := VectorCandidates(vectorHits.value, records.Keys);
    }
    fused := ReciprocalRankFusion([keyword, vector], RANK_CONSTANT);
    FusionOf(keyword, vector, RANK_CONSTANT, fused, records.Keys);
    if request.mode == Keyword {
      fused := keyword;
    } else if request.mode == Vector {
      fused := vector;
    }
  }

  /** The reranker that is wired by default. */
  ghost predicate IsNoop(rerank: Reranker) { forall query, cs :: rerank(query, cs) == cs }

  predicate SameIds(a: seq<Candidate>, b: seq<Candidate>) {
    |a| == |b| && forall i | 0 <= i < |a| :: a[i].id == b[i].id
  }

  lemma {:induction false} KeptIds(a: seq<Candidate>, b: seq<Candidate>, ids: set<Id>)
    requires SameIds(a, b)
    ensures SameIds(Kept(a, ids), Kept(b, ids))
  {
    if a != [] {
      var n := |a| - 1;
      var x, y := Kept(a[..n], ids), Kept(b[..n], ids);
      KeptIds(a[..n], b[..n], ids);
      assert a[n].id == b[n].id;
      OneMoreSame(x, y, a[n], b[n]);
    }
  }

  lemma OneMoreSame(x: seq<Candidate>, y: seq<Candidate>, c: Candidate, d: Candidate)
    requires SameIds(x, y) && c.id == d.id
    ensures SameIds(x + [c], y + [d]) && x + [] == x && y + [] == y
  {}

  /** With the default reranker, hybrid mode without vector hits answers with the same chunks in the same order as
      keyword mode on the same scan. */
  lemma {:induction false} HybridAnswersLikeKeyword(
    db: Db, acl: set<AclEntry>, project: Id, subjects: set<string>, request: Request, rerank: Reranker,
    hits: Option<seq<Hit>>, noHits: Option<seq<Hit>>, rows: seq<Id>,
    ra: map<Id, Record>, ka: seq<Candidate>, fa: seq<Candidate>, a: Response,
    rb: map<Id, Record>, kb: seq<Candidate>, fb: seq<Candidate>, b: Response)
    requires IsNoop(rerank)
    requires Explains(db, acl, project, subjects, request.(mode := Keyword), rerank, hits, rows, ra, ka, fa, a)
    requires Explains(db, acl, project, subjects, request.(mode := Hybrid), rerank, noHits, rows, rb, kb, fb, b)
    requires VectorOf(Hybrid, noHits, rb.Keys) == []
    ensures |a.results| == |b.results| && a.deniedCount == b.deniedCount
    ensures forall i | 0 <= i < |a.results| :: a.results[i].id == b.results[i].id
  {
    hide IsScan, IsKeywordRanking, IsFusion, Allowed, RecordOf, Kept;
    assert ra == rb by {
      forall id | id in ra
        ensures id in rb && ra[id] == rb[id]
      {
        assert id in rb.Keys && Recorded(db, ra, id) && Recorded(db, rb, id);
      }
      assert ra.Keys == rb.Keys;
    }
    HybridWithoutHits(request.query, ra, ka, kb, fb, RANK_CONSTANT);
    forall i | 0 <= i < |fa|
      ensures |fb| == |fa| && fa[i].id == fb[i].id
    {
      assert Ids(fa)[i] == Ids(fb)[i];
    }
    assert |Ids(fa)| == |fa| && |Ids(fb)| == |fb|;
    hide Ids;
    KeptIds(Top(fa, request.topK), Top(fb, request.topK), ra.Keys);
  }

  /** No more rows are allowed than were scanned. */
  lemma {:induction false} AllowedCount(db: Db, acl: set<AclEntry>, project: Id, subjects: set<string>, rows: seq<Id>)
    requires Distinct(rows) && forall i | 0 <= i < |rows| :: rows[i] in db.chunks
    ensures |Allowed(db, acl, project, subjects, rows)| <= |rows|
  {
    hide CanRead;
    if rows == [] {
      NothingAllowed(db, acl, project, subjects);
    } else {
      var n := |rows| - 1;
      AllowedNext(db, acl, project, subjects, rows, n);
      assert rows[..n + 1] == rows;
      AllowedCount(db, acl, project, subjects, rows[..n]);
    }
  }

  lemma {:induction false} RowsJoin(db: Db, project: Id, request: Request, rows: seq<Id>)
    requires IsScan(db, project, request, rows)
    ensures forall i | 0 <= i < |rows| ::
              rows[i] in db.chunks && db.chunks[rows[i]].document in db.documents
                && db.chunks[rows[i]].version in db.versions
    ensures forall id | id in rows :: IsActiveRow(db, project, request, id)
  {}

  method BuildResults(
    db: Db, acl: set<AclEntry>, project: Id, subjects: set<string>, request: Request,
    selected: seq<Candidate>, records: map<Id, Record>) returns (results: seq<Result>)
    requires Inv(db)
    requires forall id | id in records ::
               && IsActiveRow(db, project, request, id) && Recorded(db, records, id)
               && CanRead(acl, project, db.chunks[id], id, subjects)
    ensures Shown(results, Kept(selected, records.Keys))
    ensures forall i | 0 <= i < |results| :: Servable(db, acl, project, request, subjects, results[i])
  {
    hide Inv, IsActiveRow, CanRead, Blocked, Servable, Kept, Shown;
    results := [];
    NothingShown(records.Keys);
    assert selected[..0] == [];
    for i := 0 to |selected|
      invariant Shown(results, Kept(selected[..i], records.Keys))
      invariant forall j | 0 <= j < |results| :: Servable(db, acl, project, request, subjects, results[j])
    {
      var c := selected[i];
      KeptNext(selected, i, records.Keys);
      if c.id !in records {
        continue;
      }
      var r := records[c.id];
      var result := Result(c.id, r.chunk.ref, r.chunk.parent, c.score, c.source, r.chunk.document, r.version.number);
      IsServable(db, acl, project, subjects, request, result);
      ShownNext(results, Kept(selected[..i], records.Keys), result, c);
      results := results + [result];
    }
    assert selected[..|selected|] == selected;
  }

  lemma NothingShown(ids: set<Id>)
    ensures Shown([], Kept([], ids))
  {}

  lemma KeptNext(cs: seq<Candidate>, i: nat, ids: set<Id>)
    requires i < |cs|
    ensures Kept(cs[..i + 1], ids) == if cs[i].id in ids then Kept(cs[..i], ids) + [cs[i]] else Kept(cs[..i], ids)
  {
    assert cs[..i + 1][..i] == cs[..i];
  }

  lemma ShownNext(results: seq<Result>, cs: seq<Candidate>, r: Result, c: Candidate)
    requires Shown(results, cs) && r.id == c.id && r.score == c.score && r.source == c.source
    ensures Shown(results + [r], cs + [c])
  {}

  lemma IsServable(db: Db, acl: set<AclEntry>, project: Id, subjects: set<string>, request: Request, r: Result)
    requires Inv(db) && IsActiveRow(db, project, request, r.id)
             && CanRead(acl, project, db.chunks[r.id], r.id, subjects)
    requires var c := db.chunks[r.id];
             && r.ref == c.ref && r.parent == c.parent && r.document == c.document
             && c.version in db.versions && r.documentVersion == db.versions[c.version].number
    ensures Servable(db, acl, project, request, subjects, r)
  {
    ActiveRowIsCurrent(db, project, request, r.id);
    CanReadIff(acl, project, db.chunks[r.id], r.id, subjects);
    hide Inv, CanRead, Blocked;
  }
}
