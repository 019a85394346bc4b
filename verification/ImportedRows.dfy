/** What an import leaves in the tables for every chunk of the document, and who finds it. */
module ImportedRows {
  import opened Common
  import opened Characters
  import opened Normalization
  import opened Chunking
  import opened ChunkingTheorems
  import opened KnowledgeState
  import opened KnowledgeLifecycle
  import Retrieval

  /** The import wrote a new version. */
  predicate WroteVersion(result: ImportResult) { result.Created? || result.Versioned? }

  /** The tables just before the new version is added: the document is there, under its new title and number. */
  lemma {:induction false} ImportAdds(db: Db, request: ImportRequest, config: Config) returns (mid: Db, document: Id)
    requires config.Valid() && Inv(db) && WroteVersion(Import(db, request, config).0)
    ensures Pipeline(request.content, request.markdown, config).Chunked?
    ensures var drafts := Pipeline(request.content, request.markdown, config).chunks;
            var (result, after) := Import(db, request, config);
            && Awaiting(mid, document) && DraftsOk(drafts) && mid.nextId == result.version
            && after == AddVersion(mid, request, document, Normalize(request.content), drafts)
    ensures request.key in mid.refIndex && mid.refIndex[request.key] == document
    ensures mid.documents[document] == Document(request.key, request.title, NextNumber(db, request), Active, false)
  {
    hide Normalize, Pipeline, AddVersion, IsUnchanged, Supersede, Awaiting;
    hide VersionsOk, ChunksOk, IdsOk, DocumentsOk, DraftsOk;
    PipelineText(request.content, request.markdown, config);
    PipelineDraftsOk(request.content, request.markdown, config);
    if request.key !in db.refIndex {
      mid, document := CreateDocument(db, request), db.nextId;
      CreateAwaits(db, request);
    } else {
      document := db.refIndex[request.key];
      SupersedeDocuments(db, request.key.project, document);
      mid := ReopenDocument(Supersede(db, request.key.project, document), request, document);
      ReopenedRows(db, request, document);
      ReopenAwaits(db, request, document);
    }
  }

  /** One for a new document, else one more than before. */
  function NextNumber(db: Db, request: ImportRequest): nat
    requires IndexOk(db)
  {
    if request.key in db.refIndex then db.documents[db.refIndex[request.key]].currentVersion + 1 else 1
  }

  /** The document and version rows that an import writes. */
  lemma {:induction false} ImportedVersion(db: Db, request: ImportRequest, config: Config)
    requires config.Valid() && Inv(db) && WroteVersion(Import(db, request, config).0)
    ensures var (result, after) := Import(db, request, config);
            && request.key in after.refIndex && after.refIndex[request.key] in after.documents
            && result.version in after.versions && result.version !in db.versions
            && var document, v := after.refIndex[request.key], after.versions[result.version];
               && after.documents[document] ==
                  Document(request.key, request.title, NextNumber(db, request), Active, false)
               && v.project == request.key.project && v.document == document && v.number == NextNumber(db, request)
               && v.text == Normalize(request.content) && v.status == Active && v.ingestion == Ready && !v.isDeleted
               && v.chunkCount == |Pipeline(request.content, request.markdown, config).chunks|
  {
    var mid, document := ImportAdds(db, request, config);
    hide Normalize, Pipeline, Import, AddVersion, DraftsOk;
    NewNumber(db, request, config);
    AddedRows(mid, request, document, Normalize(request.content),
              Pipeline(request.content, request.markdown, config).chunks);
    AddedIndex(mid, request, document, Normalize(request.content),
               Pipeline(request.content, request.markdown, config).chunks);
  }

  lemma AddedIndex(db: Db, request: ImportRequest, document: Id, text: string, drafts: seq<ChunkDraft>)
    requires document in db.documents
    ensures AddVersion(db, request, document, text, drafts).refIndex == db.refIndex
  {}

  lemma {:induction false} NewNumber(db: Db, request: ImportRequest, config: Config)
    requires config.Valid() && Inv(db) && WroteVersion(Import(db, request, config).0)
    ensures Import(db, request, config).0.version !in db.versions
  {
    hide Pipeline, AddVersion, IsUnchanged, Supersede, ReopenDocument, VersionsOk, ChunksOk, DocumentsOk;
    if request.key in db.refIndex {
      ReopenedKey(db, request, db.refIndex[request.key]);
    }
  }

  // --- The chunk rows -----------------------------------------------------------

  /** The row of a draft. Its preview is the first 500 characters of the text. */
  predicate Holds(row: Chunk, request: ImportRequest, document: Id, version: Id, draft: ChunkDraft) {
    && row.project == request.key.project && row.base == request.key.base
    && row.document == document && row.version == version
    && row.ref == draft.ref && row.kind == draft.kind && row.ordinal == draft.ordinal
    && row.preview <= draft.text && |row.preview| == (if |draft.text| < 500 then |draft.text| else 500)
    && row.classification == request.classification && row.environment == request.environment
    && row.status == Active && row.indexStatus == Pending && !row.isDeleted
  }

  /** The parent row of a draft that names none is none, of any other the parent row of this version with that name. */
  predicate ParentHolds(db: Db, row: Chunk, version: Id, draft: ChunkDraft) {
    match draft.parentRef
    case None => row.parent == None
    case Some(ref) =>
      && row.parent.Some? && row.parent.value in db.chunks
      && var parent := db.chunks[row.parent.value];
         parent.version == version && parent.kind == Parent && parent.ref == ref
  }

  /** Row `v + 1 + i` is that of draft `i`. */
  predicate RowAt(db: Db, request: ImportRequest, document: Id, v: Id, drafts: seq<ChunkDraft>, i: nat)
    requires i < |drafts|
  {
    && v + 1 + i in db.chunks && Holds(db.chunks[v + 1 + i], request, document, v, drafts[i])
    && ParentHolds(db, db.chunks[v + 1 + i], v, drafts[i])
  }

  /** The rows of version `v` are one for each draft, each with the values of its draft and its parent's row. */
  ghost predicate RowsOf(db: Db, request: ImportRequest, document: Id, v: Id, drafts: seq<ChunkDraft>) {
    && (forall i: nat | i < |drafts| :: RowAt(db, request, document, v, drafts, i))
    && (forall c | c in db.chunks :: db.chunks[c].version == v <==> v < c <= v + |drafts|)
  }

  /** After an import that wrote a version, the rows of the version are one for each draft, with the draft's values, the
      classification and environment of the request, and the row of the parent it names. */
  lemma {:induction false} ImportedRows(db: Db, request: ImportRequest, config: Config)
    requires config.Valid() && Inv(db) && WroteVersion(Import(db, request, config).0)
    ensures Pipeline(request.content, request.markdown, config).Chunked?
    ensures var (result, after) := Import(db, request, config);
            && request.key in after.refIndex
            && RowsOf(after, request, after.refIndex[request.key], result.version,
                      Pipeline(request.content, request.markdown, config).chunks)
  {
    hide *;
    var mid, document := ImportAdds(db, request, config);
    var text, drafts := Normalize(request.content), Pipeline(request.content, request.markdown, config).chunks;
    AwaitsDocument(mid, document);
    AddedIndex(mid, request, document, text, drafts);
    AddedRowsOf(mid, request, document, text, drafts);
  }

  lemma {:induction false} AddedRowsOf(
    mid: Db, request: ImportRequest, document: Id, text: string, drafts: seq<ChunkDraft>)
    requires Awaiting(mid, document) && document in mid.documents && DraftsOk(drafts)
    ensures RowsOf(AddVersion(mid, request, document, text, drafts), request, document, mid.nextId, drafts)
  {
    hide AddVersion, DraftsOk, Holds, ParentHolds, Awaiting, RowAt;
    var after := AddVersion(mid, request, document, text, drafts);
    forall i: nat | i < |drafts|
      ensures RowAt(after, request, document, mid.nextId, drafts, i)
    {
      AddedRowHolds(mid, request, document, text, drafts, i);
    }
    forall c | c in after.chunks
      ensures after.chunks[c].version == mid.nextId <==> mid.nextId < c <= mid.nextId + |drafts|
    {
      if c in mid.chunks {
        OldRowOk(mid, after, request, document, text, drafts, c);
      } else {
        AddedKeys(mid, request, document, text, drafts, c);
        AddedRowVersion(mid, request, document, text, drafts, c - mid.nextId - 1);
      }
    }
  }

  lemma AwaitsDocument(db: Db, document: Id)
    requires Awaiting(db, document)
    ensures document in db.documents
  {}

  lemma {:induction false} AddedKeys(
    db: Db, request: ImportRequest, document: Id, text: string, drafts: seq<ChunkDraft>, c: Id)
    requires document in db.documents && c in AddVersion(db, request, document, text, drafts).chunks
    requires c !in db.chunks
    ensures db.nextId < c <= db.nextId + |drafts|
  {
    hide RowFor;
  }

  lemma {:induction false} AddedRowVersion(
    db: Db, request: ImportRequest, document: Id, text: string, drafts: seq<ChunkDraft>, i: nat)
    requires document in db.documents && i < |drafts|
    ensures var after := AddVersion(db, request, document, text, drafts);
            db.nextId + 1 + i in after.chunks && after.chunks[db.nextId + 1 + i].version == db.nextId
  {
    hide AddVersion;
    NewRowAt(db, AddVersion(db, request, document, text, drafts), request, document, text, drafts, db.nextId + 1 + i);
  }

  lemma {:induction false} AddedRowHolds(
    db: Db, request: ImportRequest, document: Id, text: string, drafts: seq<ChunkDraft>, i: nat)
    requires document in db.documents && i < |drafts| && DraftsOk(drafts)
    ensures RowAt(AddVersion(db, request, document, text, drafts), request, document, db.nextId, drafts, i)
  {
    hide AddVersion, IndexOfParent, NewRows;
    var after := AddVersion(db, request, document, text, drafts);
    NewRowAt(db, after, request, document, text, drafts, db.nextId + 1 + i);
    if drafts[i].parentRef.Some? {
      var j := IndexOfParent(drafts, drafts[i].parentRef.value);
      NewRowAt(db, after, request, document, text, drafts, db.nextId + 1 + j);
    }
  }

  // --- Who finds them -----------------------------------------------------------

  /** A retrieval finds a new row exactly when it searches the project, the row is a child chunk, and each filter is
      empty or names the base, classification or environment of the import. */
  lemma {:induction false} ImportedIsFound(
    db: Db, request: ImportRequest, config: Config, i: nat, project: Id, query: Retrieval.Request)
    requires config.Valid() && Inv(db) && WroteVersion(Import(db, request, config).0)
    requires Pipeline(request.content, request.markdown, config).Chunked?
    requires i < |Pipeline(request.content, request.markdown, config).chunks|
    ensures var (result, after) := Import(db, request, config);
            Retrieval.IsActiveRow(after, project, query, result.version + 1 + i) <==>
            && project == request.key.project
            && Pipeline(request.content, request.markdown, config).chunks[i].kind == Child
            && (query.bases == {} || request.key.base in query.bases)
            && (query.classifications == {} || request.classification in query.classifications)
            && (query.environments == {} || request.environment in query.environments)
  {
    hide Import, Pipeline, Normalize, RowsOf, Holds, NextNumber, VersionsOk, ChunksOk, IdsOk, DocumentsOk;
    hide Retrieval.IsActiveRow;
    ImportedRows(db, request, config);
    ImportedVersion(db, request, config);
    var (result, after) := Import(db, request, config);
    var drafts := Pipeline(request.content, request.markdown, config).chunks;
    RowOfDraft(after, request, after.refIndex[request.key], result.version, drafts, i);
    FoundIff(
      after, request, after.refIndex[request.key], result.version, drafts[i], result.version + 1 + i, project, query);
  }

  lemma RowOfDraft(db: Db, request: ImportRequest, document: Id, v: Id, drafts: seq<ChunkDraft>, i: nat)
    requires RowsOf(db, request, document, v, drafts) && i < |drafts|
    ensures v + 1 + i in db.chunks && Holds(db.chunks[v + 1 + i], request, document, v, drafts[i])
  {
    hide Holds, ParentHolds;
    assert RowAt(db, request, document, v, drafts, i);
  }

  lemma {:induction false} FoundIff(
    db: Db, request: ImportRequest, document: Id, v: Id, draft: ChunkDraft, id: Id, project: Id,
    query: Retrieval.Request)
    requires id in db.chunks && Holds(db.chunks[id], request, document, v, draft)
    requires document in db.documents && db.documents[document].key == request.key
    requires db.documents[document].status == Active && !db.documents[document].isDeleted
    requires v in db.versions && db.versions[v].project == request.key.project
    requires db.versions[v].status == Active && db.versions[v].ingestion == Ready && !db.versions[v].isDeleted
    ensures Retrieval.IsActiveRow(db, project, query, id) <==>
            && project == request.key.project && draft.kind == Child
            && (query.bases == {} || request.key.base in query.bases)
            && (query.classifications == {} || request.classification in query.classifications)
            && (query.environments == {} || request.environment in query.environments)
  {}

  // --- Which answer ---------------------------------------------------------------

  /** Which answer an import gives: the base must be active and the content not blank; a document is created when none
      has the key, and otherwise left alone or given a new version. Only a written version changes a table. */
  lemma {:induction false} ImportAnswers(db: Db, request: ImportRequest, config: Config)
    requires config.Valid() && IndexOk(db)
    ensures var (result, after) := Import(db, request, config);
            var active, blank := (request.key.project, request.key.base) in db.activeBases, AllSpace(request.content);
            && (result == NoSuchBase <==> !active)
            && (result == EmptyContent <==> active && blank)
            && (result.Created? <==>
                  active && !blank && forall d | d in db.documents :: db.documents[d].key != request.key)
            && (result.Unchanged? || result.Versioned? <==>
                  active && !blank && exists d :: d in db.documents && db.documents[d].key == request.key)
            && (!WroteVersion(result) ==> after == db)
  {
    hide Pipeline, AllSpace, IsUnchanged, AddVersion, Supersede, ReopenDocument, CreateDocument;
    EmptyIffBlank(request.content, request.markdown, config);
    if request.key in db.refIndex {
      assert db.documents[db.refIndex[request.key]].key == request.key;
    }
  }

  /** A delete changes the tables exactly when the project and the base have the document and it is not deleted yet; and
      then it touches the rows of this document only. */
  lemma {:induction false} DeleteActsIff(db: Db, project: Id, base: Id, document: Id)
    ensures var after := DeleteDocument(db, project, base, document);
            && (after != db <==>
                  && document in db.documents && !db.documents[document].isDeleted
                  && db.documents[document].key.project == project && db.documents[document].key.base == base)
            && after.documents.Keys == db.documents.Keys && after.versions.Keys == db.versions.Keys
            && after.chunks.Keys == db.chunks.Keys
            && (forall d | d in db.documents && d != document :: after.documents[d] == db.documents[d])
            && (forall v | v in db.versions && db.versions[v].document != document ::
                  after.versions[v] == db.versions[v])
            && (forall c | c in db.chunks && db.chunks[c].document != document :: after.chunks[c] == db.chunks[c])
  {
    if Deletable(db, project, base, document) {
      assert Delete(db, project, document).documents[document].isDeleted;
    }
  }

  // --- What happens to the older rows -----------------------------------------------

  /** The rows of the document that are not deleted are superseded and their chunks left to be removed from the index;
      no other row changes. */
  ghost predicate Retired(before: Db, after: Db, document: Id) {
    && (forall v | v in before.versions :: v in after.versions
          && after.versions[v] ==
             if before.versions[v].document == document && !before.versions[v].isDeleted
             then before.versions[v].(status := Superseded) else before.versions[v])
    && (forall c | c in before.chunks :: c in after.chunks
          && after.chunks[c] ==
             if before.chunks[c].document == document && !before.chunks[c].isDeleted
             then before.chunks[c].(status := Superseded, indexStatus := Stale) else before.chunks[c])
  }

  /** The rows of a document are in its project. */
  ghost predicate InProject(db: Db, document: Id, project: Id) {
    && (forall v | v in db.versions && db.versions[v].document == document :: db.versions[v].project == project)
    && (forall c | c in db.chunks && db.chunks[c].document == document :: db.chunks[c].project == project)
  }

  lemma {:induction false} RowsInProject(db: Db, document: Id)
    requires Inv(db) && document in db.documents
    ensures InProject(db, document, db.documents[document].key.project)
    ensures (forall v | v in db.versions :: v < db.nextId) && (forall c | c in db.chunks :: c < db.nextId)
  {
    hide DocumentsOk;
    forall v | v in db.versions
      ensures VersionOk(db, db.versions[v])
    {}
    forall c | c in db.chunks
      ensures ChunkOk(db, db.chunks[c])
    {}
  }

  lemma {:induction false} SupersedeRetires(db: Db, request: ImportRequest, document: Id)
    requires document in db.documents && InProject(db, document, request.key.project)
    ensures var mid := ReopenDocument(Supersede(db, request.key.project, document), request, document);
            Retired(db, mid, document) && mid.nextId == db.nextId && document in mid.documents
  {}

  lemma {:induction false} AddingKeepsRetired(
    db: Db, mid: Db, document: Id, request: ImportRequest, text: string, drafts: seq<ChunkDraft>)
    requires Retired(db, mid, document) && mid.nextId == db.nextId && document in mid.documents
    requires (forall v | v in db.versions :: v < db.nextId) && (forall c | c in db.chunks :: c < db.nextId)
    ensures Retired(db, AddVersion(mid, request, document, text, drafts), document)
  {
    hide RowFor;
  }

  /** A new version retires the older versions of the document and their chunks. */
  lemma {:induction false} ImportRetires(db: Db, request: ImportRequest, config: Config)
    requires config.Valid() && Inv(db) && Import(db, request, config).0.Versioned?
    ensures request.key in db.refIndex && Retired(db, Import(db, request, config).1, db.refIndex[request.key])
  {
    hide Pipeline, IsUnchanged, AddVersion, Supersede, ReopenDocument, Retired;
    hide VersionsOk, ChunksOk, IdsOk, DocumentsOk;
    var document := db.refIndex[request.key];
    RowsInProject(db, document);
    SupersedeRetires(db, request, document);
    match Pipeline(request.content, request.markdown, config) {
      case Chunked(text, drafts) =>
        SupersedeDocuments(db, request.key.project, document);
        AddingKeepsRetired(db, ReopenDocument(Supersede(db, request.key.project, document), request, document),
          document, request, text, drafts);
    }
  }

  /** A delete marks the document, its versions and its chunks, and takes them out of ingestion and index. */
  lemma {:induction false} DeleteRetires(db: Db, project: Id, base: Id, document: Id)
    requires Inv(db) && DeleteDocument(db, project, base, document) != db
    ensures var after := DeleteDocument(db, project, base, document);
            && document in db.documents
            && after.documents == db.documents[document :=
                 db.documents[document].(status := Deleted, isDeleted := true)]
            && (forall v | v in db.versions && db.versions[v].document == document :: v in after.versions
                  && after.versions[v] ==
                     db.versions[v].(status := Deleted, ingestion := IngestionDeleted, isDeleted := true))
            && (forall c | c in db.chunks && db.chunks[c].document == document :: c in after.chunks
                  && after.chunks[c] ==
                     db.chunks[c].(status := Deleted, indexStatus := IndexDeleted, isDeleted := true))
  {
    hide Inv;
    RowsInProject(db, document);
  }
}
