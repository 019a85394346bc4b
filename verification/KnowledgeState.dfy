/** Documents, their versions and their chunks as tables, and what import and delete do to them. */
module KnowledgeState {
  import opened Common
  import opened Chunking

  datatype Status = Active | Superseded | Deleted

  datatype IngestionStatus = Ready | IngestionDeleted

  datatype IndexStatus = Pending | Stale | IndexDeleted

  datatype DocumentKey = DocumentKey(project: Id, base: Id, ref: string)

  datatype Document = Document(key: DocumentKey, title: string, currentVersion: nat, status: Status, isDeleted: bool)

  /** `text` is the normalized text, in place of its hash. */
  datatype Version = Version(
    project: Id, document: Id, number: nat, text: string, chunkCount: nat,
    status: Status, ingestion: IngestionStatus, isDeleted: bool)

  datatype Chunk = Chunk(
    project: Id, base: Id, document: Id, version: Id, parent: Option<Id>, ref: string, kind: ChunkKind, ordinal: nat,
    preview: string, classification: string, environment: string,
    status: Status, indexStatus: IndexStatus, isDeleted: bool)

  /** The tables. `refIndex` is the unique index over project, knowledge base and document reference. */
  datatype Db = Db(
    activeBases: set<(Id, Id)>,
    documents: map<Id, Document>, refIndex: map<DocumentKey, Id>,
    versions: map<Id, Version>, chunks: map<Id, Chunk>, nextId: Id)

  datatype ImportRequest = ImportRequest(
    key: DocumentKey, title: string, markdown: bool, content: string, classification: string, environment: string)

  datatype ImportResult = NoSuchBase | EmptyContent | Unchanged(version: Id) | Created(version: Id)
    | Versioned(version: Id)

  // --- Queries --------------------------------------------------------------

  predicate IsLiveVersion(db: Db, project: Id, document: Id, v: Id) {
    v in db.versions && db.versions[v].project == project && db.versions[v].document == document
      && !db.versions[v].isDeleted
  }

  /** `v` is the answer of the latest-version query. */
  predicate IsLatest(db: Db, project: Id, document: Id, v: Id) {
    && IsLiveVersion(db, project, document, v)
    && forall w | w in db.versions ::
         IsLiveVersion(db, project, document, w) ==> db.versions[w].number <= db.versions[v].number
  }

  /** The latest version of a live document is ready and has this text. */
  predicate IsUnchanged(db: Db, document: Id, text: string, v: Id)
    requires document in db.documents
  {
    && !db.documents[document].isDeleted
    && IsLatest(db, db.documents[document].key.project, document, v)
    && db.versions[v].text == text && db.versions[v].ingestion == Ready
  }

  // --- Row updates ----------------------------------------------------------

  function SupersededVersion(v: Version): Version { v.(status := Superseded) }

  function SupersededChunk(c: Chunk): Chunk { c.(status := Superseded, indexStatus := Stale) }

  function DeletedVersion(v: Version): Version {
    v.(status := Deleted, ingestion := IngestionDeleted, isDeleted := true)
  }

  function DeletedChunk(c: Chunk): Chunk {
    c.(status := Deleted, indexStatus := IndexDeleted, isDeleted := true)
  }

  function Supersede(db: Db, project: Id, document: Id): Db {
    db.(versions := map v | v in db.versions ::
          if IsLiveVersion(db, project, document, v) then SupersededVersion(db.versions[v]) else db.versions[v],
        chunks := map c | c in db.chunks ::
          if db.chunks[c].project == project && db.chunks[c].document == document && !db.chunks[c].isDeleted
          then SupersededChunk(db.chunks[c]) else db.chunks[c])
  }

  function Delete(db: Db, project: Id, document: Id): Db
    requires document in db.documents
  {
    db.(documents := db.documents[document := db.documents[document].(status := Deleted, isDeleted := true)],
        versions := map v | v in db.versions ::
          if db.versions[v].project == project && db.versions[v].document == document
          then DeletedVersion(db.versions[v]) else db.versions[v],
        chunks := map c | c in db.chunks ::
          if db.chunks[c].project == project && db.chunks[c].document == document
          then DeletedChunk(db.chunks[c]) else db.chunks[c])
  }

  // --- New rows -------------------------------------------------------------

  /** Position of the parent draft with reference `ref`, or the number of drafts. */
  function IndexOfParent(drafts: seq<ChunkDraft>, ref: string): (i: nat)
    ensures i <= |drafts|
    ensures i < |drafts| ==> drafts[i].kind == Parent && drafts[i].ref == ref
  {
    if drafts == [] then 0
    else if drafts[0].kind == Parent && drafts[0].ref == ref then 0
    else 1 + IndexOfParent(drafts[1..], ref)
  }

  function ChunkRow(request: ImportRequest, document: Id, version: Id, draft: ChunkDraft, parent: Option<Id>): Chunk {
    Chunk(request.key.project, request.key.base, document, version, parent, draft.ref, draft.kind, draft.ordinal,
          if |draft.text| <= 500 then draft.text else draft.text[..500],
          request.classification, request.environment, Active, Pending, false)
  }

  /** Row `id` holds draft `id - base`; a child points at the row of the parent draft it names. */
  function RowFor(request: ImportRequest, document: Id, version: Id, drafts: seq<ChunkDraft>, base: Id, id: Id): Chunk
    requires base <= id < base + |drafts|
  {
    var draft := drafts[id - base];
    ChunkRow(request, document, version, draft,
             match draft.parentRef case None => None case Some(ref) => Some(base + IndexOfParent(drafts, ref)))
  }

  /** The rows of the first `n` drafts. */
  function NewRows(
    request: ImportRequest, document: Id, version: Id, drafts: seq<ChunkDraft>, base: Id, n: nat): map<Id, Chunk>
    requires n <= |drafts|
  {
    map id: Id | base <= id < base + n :: RowFor(request, document, version, drafts, base, id)
  }

  /** Adds version row `db.nextId` and its chunk rows after it. */
  function AddVersion(db: Db, request: ImportRequest, document: Id, text: string, drafts: seq<ChunkDraft>): Db
    requires document in db.documents
  {
    var v, base := db.nextId, db.nextId + 1;
    db.(versions := db.versions[v := Version(
            request.key.project, document, db.documents[document].currentVersion, text, |drafts|, Active, Ready,
            false)],
        chunks := db.chunks + NewRows(request, document, v, drafts, base, |drafts|),
        nextId := base + |drafts|)
  }

  function CreateDocument(db: Db, request: ImportRequest): Db {
    db.(documents := db.documents[db.nextId := Document(request.key, request.title, 1, Active, false)],
        refIndex := db.refIndex[request.key := db.nextId],
        nextId := db.nextId + 1)
  }

  function ReopenDocument(db: Db, request: ImportRequest, document: Id): Db
    requires document in db.documents
  {
    var d := db.documents[document];
    db.(documents := db.documents[document :=
          d.(title := request.title, currentVersion := d.currentVersion + 1, status := Active, isDeleted := false)])
  }

  // --- The two transactions -------------------------------------------------

  /** Result and new tables of one import. */
  ghost function Import(db: Db, request: ImportRequest, config: Config): (ImportResult, Db)
    requires config.Valid() && IndexOk(db)
  {
    if (request.key.project, request.key.base) !in db.activeBases then (NoSuchBase, db)
    else
      match Pipeline(request.content, request.markdown, config)
      case EmptyDocument => (EmptyContent, db)
      case Chunked(text, drafts) =>
        if request.key !in db.refIndex then
          var created := CreateDocument(db, request);
          (Created(created.nextId), AddVersion(created, request, db.nextId, text, drafts))
        else
          var document := db.refIndex[request.key];
          if exists v :: IsUnchanged(db, document, text, v) then
            var v :| IsUnchanged(db, document, text, v);
            (Unchanged(v), db)
          else
            var reopened := ReopenDocument(Supersede(db, request.key.project, document), request, document);
            (Versioned(reopened.nextId), AddVersion(reopened, request, document, text, drafts))
  }

  predicate IndexOk(db: Db) {
    && (forall key | key in db.refIndex ::
        db.refIndex[key] in db.documents && db.documents[db.refIndex[key]].key == key)
    && (forall d | d in db.documents :: db.documents[d].key in db.refIndex && db.refIndex[db.documents[d].key] == d)
  }

  /** True when the delete query finds the document. */
  predicate Deletable(db: Db, project: Id, base: Id, document: Id) {
    && document in db.documents && !db.documents[document].isDeleted
    && db.documents[document].key.project == project && db.documents[document].key.base == base
  }

  function DeleteDocument(db: Db, project: Id, base: Id, document: Id): Db {
    if Deletable(db, project, base, document) then Delete(db, project, document) else db
  }
}
