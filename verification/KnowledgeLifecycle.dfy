/** What every sequence of imports, deletes and re-imports keeps. */
module KnowledgeLifecycle {
  import opened Common
  import opened Normalization
  import opened Chunking
  import opened ChunkingTheorems
  import opened KnowledgeState

  // --- The invariant --------------------------------------------------------

  predicate IdsOk(db: Db) {
    && (forall d | d in db.documents :: d < db.nextId)
    && (forall v | v in db.versions :: v < db.nextId)
    && (forall c | c in db.chunks :: c < db.nextId)
  }

  predicate DocumentOk(d: Document) {
    d.currentVersion >= 1 && d.status == if d.isDeleted then Deleted else Active
  }

  predicate DocumentsOk(db: Db) {
    forall d | d in db.documents :: DocumentOk(db.documents[d])
  }

  /** A version belongs to a document of its project, and it is active exactly when it is the current one of a live
      document. */
  predicate VersionOk(db: Db, v: Version) {
    && v.document in db.documents
    && (var d := db.documents[v.document];
        && v.project == d.key.project && 1 <= v.number <= d.currentVersion
        && (v.status == Active <==> v.number == d.currentVersion && !d.isDeleted)
        && (d.isDeleted ==> v.isDeleted))
    && (v.isDeleted <==> v.status == Deleted)
    && (v.ingestion == Ready <==> !v.isDeleted)
  }

  predicate SameSlot(v: Version, w: Version) { v.document == w.document && v.number == w.number }

  predicate HasVersion(db: Db, document: Id, number: nat) {
    exists v :: v in db.versions && db.versions[v].document == document && db.versions[v].number == number
  }

  /** The version numbers of a document are exactly `1..currentVersion`, each used once. */
  predicate VersionsOk(db: Db) {
    && (forall v | v in db.versions :: VersionOk(db, db.versions[v]))
    && (forall v, w | v in db.versions && w in db.versions :: SameSlot(db.versions[v], db.versions[w]) ==> v == w)
    && (forall d, n: nat | d in db.documents && 1 <= n <= db.documents[d].currentVersion :: HasVersion(db, d, n))
  }

  function IndexStatusOf(status: Status): IndexStatus {
    match status case Active => Pending case Superseded => Stale case Deleted => IndexDeleted
  }

  /** A chunk follows its version, and a child's parent is a parent chunk of the same version. */
  predicate ChunkOk(db: Db, c: Chunk) {
    && c.version in db.versions
    && (var v := db.versions[c.version];
        && c.document == v.document && c.project == v.project
        && c.status == v.status && c.isDeleted == v.isDeleted && c.indexStatus == IndexStatusOf(v.status))
    && (c.kind == Parent <==> c.parent == None)
    && (c.parent.Some? ==>
          && c.parent.value in db.chunks && db.chunks[c.parent.value].kind == Parent
          && db.chunks[c.parent.value].version == c.version)
    && c.document in db.documents && c.base == db.documents[c.document].key.base
  }

  /** The unique constraint over version and chunk reference. */
  predicate ChunksOk(db: Db) {
    && (forall c | c in db.chunks :: ChunkOk(db, db.chunks[c]))
    && (forall c, e | c in db.chunks && e in db.chunks ::
          db.chunks[c].version == db.chunks[e].version && db.chunks[c].ref == db.chunks[e].ref ==> c == e)
  }

  predicate Inv(db: Db) {
    IndexOk(db) && IdsOk(db) && DocumentsOk(db) && VersionsOk(db) && ChunksOk(db)
  }

  // --- Delete ---------------------------------------------------------------

  lemma {:induction false} DeleteVersionOk(db: Db, project: Id, base: Id, document: Id, v: Id)
    requires Inv(db) && Deletable(db, project, base, document) && v in db.versions
    ensures VersionOk(Delete(db, project, document), Delete(db, project, document).versions[v])
  {
    assert VersionOk(db, db.versions[v]);
  }

  lemma {:induction false} DeleteChunkOk(db: Db, project: Id, base: Id, document: Id, c: Id)
    requires Inv(db) && Deletable(db, project, base, document) && c in db.chunks
    ensures ChunkOk(Delete(db, project, document), Delete(db, project, document).chunks[c])
  {
    assert ChunkOk(db, db.chunks[c]);
    assert VersionOk(db, db.versions[db.chunks[c].version]);
  }

  /** What deleting leaves as it was. */
  lemma {:induction false} DeletedRows(db: Db, project: Id, document: Id)
    requires IndexOk(db) && IdsOk(db) && DocumentsOk(db) && document in db.documents
    ensures var db' := Delete(db, project, document);
            && IndexOk(db') && IdsOk(db') && DocumentsOk(db')
            && db'.documents.Keys == db.documents.Keys
            && (forall d | d in db.documents :: db'.documents[d].currentVersion == db.documents[d].currentVersion)
  {}

  lemma {:induction false} DeletedSlots(db: Db, project: Id, document: Id)
    requires document in db.documents
    ensures var db' := Delete(db, project, document);
            && db'.versions.Keys == db.versions.Keys && db'.chunks.Keys == db.chunks.Keys
            && (forall v | v in db.versions :: SameSlot(db.versions[v], db'.versions[v]))
            && (forall c | c in db.chunks ::
                  db'.chunks[c].version == db.chunks[c].version && db'.chunks[c].ref == db.chunks[c].ref)
  {}

  lemma {:induction false} DeleteKeepsInv(db: Db, project: Id, base: Id, document: Id)
    requires Inv(db)
    ensures Inv(DeleteDocument(db, project, base, document))
  {
    hide VersionOk, ChunkOk, HasVersion, IndexOk, IdsOk, DocumentsOk, Delete;
    if Deletable(db, project, base, document) {
      DeletedRows(db, project, document);
      DeletedSlots(db, project, document);
      var db' := Delete(db, project, document);
      forall d, n: nat | d in db'.documents && 1 <= n <= db'.documents[d].currentVersion
        ensures HasVersion(db', d, n)
      {
        KeepsVersion(db, db', d, n);
      }
      forall v | v in db'.versions
        ensures VersionOk(db', db'.versions[v])
      {
        DeleteVersionOk(db, project, base, document, v);
      }
      forall c | c in db'.chunks
        ensures ChunkOk(db', db'.chunks[c])
      {
        DeleteChunkOk(db, project, base, document, c);
      }
      forall v, w | v in db'.versions && w in db'.versions
        ensures SameSlot(db'.versions[v], db'.versions[w]) ==> v == w
      {
        assert SameSlot(db.versions[v], db'.versions[v]) && SameSlot(db.versions[w], db'.versions[w]);
      }
    }
  }

  lemma {:induction false} KeepsVersion(db: Db, db': Db, d: Id, n: nat)
    requires HasVersion(db, d, n)
    requires forall v | v in db.versions :: v in db'.versions && SameSlot(db.versions[v], db'.versions[v])
    ensures HasVersion(db', d, n)
  {
    var v :| v in db.versions && db.versions[v].document == d && db.versions[v].number == n;
    assert v in db'.versions && SameSlot(db.versions[v], db'.versions[v]);
  }

  // --- Import ---------------------------------------------------------------

  /** A document whose row is ready for version `currentVersion`, which is not there yet. */
  predicate Awaiting(db: Db, document: Id) {
    && IndexOk(db) && IdsOk(db) && DocumentsOk(db)
    && document in db.documents && !db.documents[document].isDeleted
    && (forall v | v in db.versions ::
          if db.versions[v].document == document then AwaitingVersion(db.documents[document], db.versions[v])
          else VersionOk(db, db.versions[v]))
    && (forall v, w | v in db.versions && w in db.versions :: SameSlot(db.versions[v], db.versions[w]) ==> v == w)
    && (forall d, n: nat | d in db.documents && 1 <= n <= db.documents[d].currentVersion ::
          !(d == document && n == db.documents[d].currentVersion) ==> HasVersion(db, d, n))
    && ChunksOk(db)
  }

  /** An earlier version of the document: superseded or deleted. */
  predicate AwaitingVersion(d: Document, v: Version) {
    && v.project == d.key.project && 1 <= v.number < d.currentVersion
    && v.status != Active
    && (v.isDeleted <==> v.status == Deleted)
    && (v.ingestion == Ready <==> !v.isDeleted)
  }

  lemma {:induction false} CreateAwaits(db: Db, request: ImportRequest)
    requires Inv(db) && request.key !in db.refIndex
    ensures Awaiting(CreateDocument(db, request), db.nextId)
  {
    hide VersionOk, ChunkOk, AwaitingVersion, IndexOk, IdsOk, DocumentsOk, CreateDocument, HasVersion;
    CreatedRows(db, request);
    var db' := CreateDocument(db, request);
    forall v | v in db.versions
      ensures db.versions[v].document != db.nextId && VersionOk(db', db.versions[v])
    {
      CreateVersionOk(db, request, db.versions[v]);
    }
    forall c | c in db.chunks
      ensures ChunkOk(db', db.chunks[c])
    {
      CreateChunkOk(db, request, db.chunks[c]);
    }
    forall d, n: nat | d in db'.documents && 1 <= n <= db'.documents[d].currentVersion
      ensures !(d == db.nextId && n == db'.documents[d].currentVersion) ==> HasVersion(db', d, n)
    {
      if d != db.nextId {
        KeepsVersion(db, db', d, n);
      }
    }
  }

  /** What creating a document row adds, and what it leaves as it was. */
  lemma {:induction false} CreatedRows(db: Db, request: ImportRequest)
    requires IndexOk(db) && IdsOk(db) && DocumentsOk(db) && request.key !in db.refIndex
    ensures var db' := CreateDocument(db, request);
            && IndexOk(db') && IdsOk(db') && DocumentsOk(db')
            && db'.versions == db.versions && db'.chunks == db.chunks
            && db'.documents.Keys == db.documents.Keys + {db.nextId}
            && !db'.documents[db.nextId].isDeleted && db'.documents[db.nextId].currentVersion == 1
            && (forall d | d in db.documents :: d != db.nextId && db'.documents[d] == db.documents[d])
  {}

  lemma {:induction false} CreateVersionOk(db: Db, request: ImportRequest, v: Version)
    requires IdsOk(db) && VersionOk(db, v)
    ensures v.document != db.nextId && VersionOk(CreateDocument(db, request), v)
  {}

  lemma {:induction false} CreateChunkOk(db: Db, request: ImportRequest, c: Chunk)
    requires IdsOk(db) && ChunkOk(db, c)
    ensures ChunkOk(CreateDocument(db, request), c)
  {}

  lemma {:induction false} SupersedeVersions(db: Db, request: ImportRequest, document: Id, v: Id)
    requires Inv(db) && document in db.documents && request.key == db.documents[document].key && v in db.versions
    ensures var db' := ReopenDocument(Supersede(db, request.key.project, document), request, document);
            if db.versions[v].document == document then AwaitingVersion(db'.documents[document], db'.versions[v])
            else VersionOk(db', db'.versions[v])
  {
    assert VersionOk(db, db.versions[v]);
  }

  lemma {:induction false} SupersedeChunk(db: Db, request: ImportRequest, document: Id, c: Id)
    requires Inv(db) && document in db.documents && request.key == db.documents[document].key && c in db.chunks
    ensures var db' := ReopenDocument(Supersede(db, request.key.project, document), request, document);
            ChunkOk(db', db'.chunks[c])
  {
    assert ChunkOk(db, db.chunks[c]);
    assert VersionOk(db, db.versions[db.chunks[c].version]);
    hide IndexOk, IdsOk, DocumentsOk, VersionsOk, ChunksOk, HasVersion;
  }

  lemma SupersedeDocuments(db: Db, project: Id, document: Id)
    ensures Supersede(db, project, document).documents == db.documents
  {}

  /** What superseding and reopening leave as it was. */
  lemma {:induction false} ReopenedRows(db: Db, request: ImportRequest, document: Id)
    requires IndexOk(db) && IdsOk(db) && DocumentsOk(db)
    requires document in db.documents && request.key == db.documents[document].key
    ensures var db' := ReopenDocument(Supersede(db, request.key.project, document), request, document);
            && IndexOk(db') && IdsOk(db') && DocumentsOk(db')
            && db'.refIndex == db.refIndex && db'.activeBases == db.activeBases && db'.nextId == db.nextId
            && db'.documents.Keys == db.documents.Keys && !db'.documents[document].isDeleted
            && db'.documents[document].currentVersion == db.documents[document].currentVersion + 1
            && (forall d | d in db.documents && d != document :: db'.documents[d] == db.documents[d])
  {}

  lemma {:induction false} ReopenedSlots(db: Db, request: ImportRequest, document: Id)
    requires document in db.documents
    ensures var db' := ReopenDocument(Supersede(db, request.key.project, document), request, document);
            && db'.versions.Keys == db.versions.Keys && db'.chunks.Keys == db.chunks.Keys
            && (forall v | v in db.versions :: SameSlot(db.versions[v], db'.versions[v]))
            && (forall c | c in db.chunks ::
                  db'.chunks[c].version == db.chunks[c].version && db'.chunks[c].ref == db.chunks[c].ref)
  {}

  lemma {:induction false} ReopenAwaits(db: Db, request: ImportRequest, document: Id)
    requires Inv(db) && document in db.documents && request.key == db.documents[document].key
    ensures Awaiting(ReopenDocument(Supersede(db, request.key.project, document), request, document), document)
  {
    hide VersionOk, ChunkOk, AwaitingVersion, IndexOk, IdsOk, DocumentsOk, Supersede, ReopenDocument, HasVersion;
    SupersedeDocuments(db, request.key.project, document);
    ReopenedRows(db, request, document);
    ReopenedSlots(db, request, document);
    var db' := ReopenDocument(Supersede(db, request.key.project, document), request, document);
    forall d, n: nat | d in db'.documents && 1 <= n <= db'.documents[d].currentVersion
      ensures !(d == document && n == db'.documents[d].currentVersion) ==> HasVersion(db', d, n)
    {
      if !(d == document && n == db'.documents[d].currentVersion) {
        KeepsVersion(db, db', d, n);
      }
    }
    forall v | v in db'.versions
      ensures if db'.versions[v].document == document then AwaitingVersion(db'.documents[document], db'.versions[v])
              else VersionOk(db', db'.versions[v])
    {
      assert SameSlot(db.versions[v], db'.versions[v]);
      SupersedeVersions(db, request, document, v);
    }
    forall c | c in db'.chunks
      ensures ChunkOk(db', db'.chunks[c])
    {
      SupersedeChunk(db, request, document, c);
    }
  }

  /** What the pipeline promises about its drafts, as the importer uses it. */
  predicate DraftsOk(drafts: seq<ChunkDraft>) {
    && (forall i, k | 0 <= i < k < |drafts| :: drafts[i].ref != drafts[k].ref)
    && (forall i | 0 <= i < |drafts| :: drafts[i].kind == Parent <==> drafts[i].parentRef == None)
    && (forall i | 0 <= i < |drafts| && drafts[i].parentRef.Some? ::
          IndexOfParent(drafts, drafts[i].parentRef.value) < |drafts|)
  }

  lemma {:induction false} ParentFound(drafts: seq<ChunkDraft>, j: nat)
    requires j < |drafts| && drafts[j].kind == Parent
    ensures IndexOfParent(drafts, drafts[j].ref) <= j
  {
    if j > 0 && !(drafts[0].kind == Parent && drafts[0].ref == drafts[j].ref) {
      ParentFound(drafts[1..], j - 1);
    }
  }

  /** The parent lookup of the importer never misses, and its references satisfy the unique constraint. */
  lemma {:induction false} PipelineDraftsOk(content: string, markdown: bool, config: Config)
    requires config.Valid() && Pipeline(content, markdown, config).Chunked?
    ensures DraftsOk(Pipeline(content, markdown, config).chunks)
  {
    hide Pipeline, Parents;
    var drafts, parents := Pipeline(content, markdown, config).chunks, Parents(content, markdown, config);
    forall i, k | 0 <= i < k < |drafts|
      ensures drafts[i].ref != drafts[k].ref
    {
      RefsDistinct(content, markdown, config, i, k);
    }
    forall i | 0 <= i < |drafts|
      ensures drafts[i].kind == Parent <==> drafts[i].parentRef == None
      ensures drafts[i].parentRef.Some? ==> IndexOfParent(drafts, drafts[i].parentRef.value) < |drafts|
    {
      OrdinalsAndParents(content, markdown, config, parents, drafts, i);
      if i >= |parents| {
        var j: nat :| j < |parents| && drafts[i].parentRef == Some(drafts[j].ref);
        OrdinalsAndParents(content, markdown, config, parents, drafts, j);
        ParentFound(drafts, j);
      }
    }
  }

  lemma {:induction false} NewRowAt(
    db: Db, db': Db, request: ImportRequest, document: Id, text: string, drafts: seq<ChunkDraft>, id: Id)
    requires document in db.documents && db' == AddVersion(db, request, document, text, drafts)
    requires db.nextId + 1 <= id < db.nextId + 1 + |drafts|
    ensures id in db'.chunks && db'.chunks[id] == RowFor(request, document, db.nextId, drafts, db.nextId + 1, id)
    ensures db'.documents == db.documents && db.nextId in db'.versions
    ensures db'.versions[db.nextId] == Version(request.key.project, document, db.documents[document].currentVersion,
                                               text, |drafts|, Active, Ready, false)
  {
    hide RowFor;
    assert id in NewRows(request, document, db.nextId, drafts, db.nextId + 1, |drafts|);
  }

  lemma {:induction false} NewRowOk(
    db: Db, db': Db, request: ImportRequest, document: Id, text: string, drafts: seq<ChunkDraft>, id: Id)
    requires document in db.documents && request.key == db.documents[document].key && DraftsOk(drafts)
    requires db' == AddVersion(db, request, document, text, drafts)
    requires db.nextId + 1 <= id < db.nextId + 1 + |drafts|
    ensures id in db'.chunks && ChunkOk(db', db'.chunks[id])
    ensures db'.chunks[id].ref == drafts[id - db.nextId - 1].ref && db'.chunks[id].version == db.nextId
  {
    hide AddVersion, NewRows, IndexOfParent;
    NewRowAt(db, db', request, document, text, drafts, id);
    var draft := drafts[id - db.nextId - 1];
    if draft.parentRef.Some? {
      var j := IndexOfParent(drafts, draft.parentRef.value);
      NewRowAt(db, db', request, document, text, drafts, db.nextId + 1 + j);
    }
  }

  lemma {:induction false} OldRowOk(
    db: Db, db': Db, request: ImportRequest, document: Id, text: string, drafts: seq<ChunkDraft>, id: Id)
    requires Awaiting(db, document) && db' == AddVersion(db, request, document, text, drafts) && id in db.chunks
    ensures id < db.nextId && id in db'.chunks && db'.chunks[id] == db.chunks[id] && ChunkOk(db', db'.chunks[id])
    ensures db'.chunks[id].version < db.nextId
  {
    assert ChunkOk(db, db.chunks[id]);
    hide RowFor;
    var c := db.chunks[id];
    if c.parent.Some? {
      assert c.parent.value < db.nextId;
    }
  }

  lemma {:induction false} AddVersionChunks(
    db: Db, db': Db, request: ImportRequest, document: Id, text: string, drafts: seq<ChunkDraft>)
    requires Awaiting(db, document) && request.key == db.documents[document].key && DraftsOk(drafts)
    requires db' == AddVersion(db, request, document, text, drafts)
    ensures ChunksOk(db')
  {
    hide ChunkOk, RowFor;
    var base := db.nextId + 1;
    assert forall c | c in db'.chunks :: c in db.chunks || base <= c < base + |drafts|;
    forall c | c in db'.chunks
      ensures ChunkOk(db', db'.chunks[c])
    {
      if c in db.chunks {
        OldRowOk(db, db', request, document, text, drafts, c);
      } else {
        NewRowOk(db, db', request, document, text, drafts, c);
      }
    }
    forall c, e | c in db'.chunks && e in db'.chunks
      && db'.chunks[c].version == db'.chunks[e].version && db'.chunks[c].ref == db'.chunks[e].ref
      ensures c == e
    {
      if c in db.chunks {
        OldRowOk(db, db', request, document, text, drafts, c);
      } else {
        NewRowOk(db, db', request, document, text, drafts, c);
      }
      if e in db.chunks {
        OldRowOk(db, db', request, document, text, drafts, e);
      } else {
        NewRowOk(db, db', request, document, text, drafts, e);
      }
    }
  }

  lemma {:induction false} AddVersionKeepsInv(
    db: Db, request: ImportRequest, document: Id, text: string, drafts: seq<ChunkDraft>)
    requires Awaiting(db, document) && request.key == db.documents[document].key && DraftsOk(drafts)
    ensures Inv(AddVersion(db, request, document, text, drafts))
  {
    hide ChunkOk, ChunksOk, VersionOk, HasVersion, AddVersion, IndexOk, IdsOk, DocumentsOk, AwaitingVersion;
    var db' := AddVersion(db, request, document, text, drafts);
    AddVersionChunks(db, db', request, document, text, drafts);
    AddedRows(db, request, document, text, drafts);
    forall v | v in db'.versions
      ensures VersionOk(db', db'.versions[v])
    {
      AddedVersionOk(db, request, document, text, drafts, v);
    }
    forall v, w | v in db'.versions && w in db'.versions
      ensures SameSlot(db'.versions[v], db'.versions[w]) ==> v == w
    {
      AddedSlot(db, request, document, text, drafts, v, w);
    }
    forall d, n: nat | d in db'.documents && 1 <= n <= db'.documents[d].currentVersion
      ensures HasVersion(db', d, n)
    {
      if !(d == document && n == db'.documents[d].currentVersion) {
        KeepsVersion(db, db', d, n);
      } else {
        SlotFilled(db', db.nextId);
      }
    }
  }

  /** What adding a version adds to the tables, and what it leaves as it was. */
  lemma {:induction false} AddedRows(
    db: Db, request: ImportRequest, document: Id, text: string, drafts: seq<ChunkDraft>)
    requires document in db.documents && IndexOk(db) && IdsOk(db) && DocumentsOk(db)
    ensures var db' := AddVersion(db, request, document, text, drafts);
            && IndexOk(db') && IdsOk(db') && DocumentsOk(db') && db'.documents == db.documents
            && db'.versions.Keys == db.versions.Keys + {db.nextId} && db.nextId !in db.versions
            && (forall v | v in db.versions ::
                db'.versions[v] == db.versions[v] && SameSlot(db.versions[v], db'.versions[v]))
            && db'.versions[db.nextId] == Version(request.key.project, document, db.documents[document].currentVersion,
                                                  text, |drafts|, Active, Ready, false)
  {
    hide RowFor;
  }

  lemma {:induction false} AddedVersionOk(
    db: Db, request: ImportRequest, document: Id, text: string, drafts: seq<ChunkDraft>, v: Id)
    requires Awaiting(db, document) && request.key == db.documents[document].key
    requires v in AddVersion(db, request, document, text, drafts).versions
    ensures var db' := AddVersion(db, request, document, text, drafts); VersionOk(db', db'.versions[v])
  {
    hide ChunksOk, HasVersion, AddVersion;
    AddedRows(db, request, document, text, drafts);
    hide IndexOk, IdsOk;
    assert DocumentOk(db.documents[document]);
  }

  lemma {:induction false} AddedSlot(
    db: Db, request: ImportRequest, document: Id, text: string, drafts: seq<ChunkDraft>, v: Id, w: Id)
    requires Awaiting(db, document)
    requires var db' := AddVersion(db, request, document, text, drafts);
             v in db'.versions && w in db'.versions
    ensures var db' := AddVersion(db, request, document, text, drafts);
            SameSlot(db'.versions[v], db'.versions[w]) ==> v == w
  {
    hide ChunksOk, HasVersion, AddVersion, VersionOk, IndexOk, IdsOk, DocumentsOk;
    AddedRows(db, request, document, text, drafts);
  }

  lemma {:induction false} SlotFilled(db: Db, v: Id)
    requires v in db.versions
    ensures HasVersion(db, db.versions[v].document, db.versions[v].number)
  {}

  lemma {:induction false} ImportKeepsInv(db: Db, request: ImportRequest, config: Config)
    requires Inv(db) && config.Valid()
    ensures Inv(Import(db, request, config).1)
  {
    hide Pipeline, AddVersion, CreateDocument, ReopenDocument, Supersede, Awaiting;
    hide VersionsOk, ChunksOk, DraftsOk;
    match Pipeline(request.content, request.markdown, config) {
      case EmptyDocument =>
      case Chunked(text, drafts) =>
        PipelineDraftsOk(request.content, request.markdown, config);
        if request.key !in db.refIndex {
          CreateAwaits(db, request);
          CreatedKey(db, request);
          AddVersionKeepsInv(CreateDocument(db, request), request, db.nextId, text, drafts);
        } else {
          var document := db.refIndex[request.key];
          ReopenAwaits(db, request, document);
          ReopenedKey(db, request, document);
          AddVersionKeepsInv(
            ReopenDocument(Supersede(db, request.key.project, document), request, document), request, document, text,
            drafts);
        }
    }
  }

  lemma {:induction false} CreatedKey(db: Db, request: ImportRequest)
    ensures db.nextId in CreateDocument(db, request).documents && CreateDocument(db, request).nextId == db.nextId + 1
    ensures CreateDocument(db, request).documents[db.nextId].key == request.key
  {}

  lemma {:induction false} ReopenedKey(db: Db, request: ImportRequest, document: Id)
    requires document in db.documents
    ensures document in Supersede(db, request.key.project, document).documents
    ensures ReopenDocument(Supersede(db, request.key.project, document), request, document).nextId == db.nextId
    ensures document in ReopenDocument(Supersede(db, request.key.project, document), request, document).documents
    ensures ReopenDocument(Supersede(db, request.key.project, document), request, document).documents[document].key
         == db.documents[document].key
  {}

  // --- Runs -----------------------------------------------------------------

  datatype Op = DoImport(request: ImportRequest) | DoDelete(project: Id, base: Id, document: Id)

  function EmptyDb(activeBases: set<(Id, Id)>): Db {
    Db(activeBases, map[], map[], map[], map[], 0)
  }

  ghost function Step(db: Db, op: Op, config: Config): Db
    requires config.Valid() && Inv(db)
  {
    match op
    case DoImport(request) => Import(db, request, config).1
    case DoDelete(project, base, document) => DeleteDocument(db, project, base, document)
  }

  lemma {:induction false} StepKeepsInv(db: Db, op: Op, config: Config)
    requires config.Valid() && Inv(db)
    ensures Inv(Step(db, op, config))
  {
    hide Inv, Import, DeleteDocument;
    match op {
      case DoImport(request) => ImportKeepsInv(db, request, config);
      case DoDelete(project, base, document) => DeleteKeepsInv(db, project, base, document);
    }
  }

  /** The tables after a sequence of operations. */
  ghost function Run(bases: set<(Id, Id)>, ops: seq<Op>, config: Config): (db: Db)
    requires config.Valid()
    ensures Inv(db)
  {
    if ops == [] then EmptyDb(bases)
    else
      var db := Run(bases, ops[..|ops| - 1], config);
      StepKeepsInv(db, ops[|ops| - 1], config);
      Step(db, ops[|ops| - 1], config)
  }

  /** After any run: the versions of a document are numbered `1..currentVersion` without gap or repeat. */
  lemma {:induction false} VersionNumbers(bases: set<(Id, Id)>, ops: seq<Op>, config: Config, db: Db, d: Id)
    requires config.Valid() && db == Run(bases, ops, config) && d in db.documents
    ensures forall n: nat :: HasVersion(db, d, n) <==> 1 <= n <= db.documents[d].currentVersion
    ensures forall v, w | v in db.versions && w in db.versions :: SameSlot(db.versions[v], db.versions[w]) ==> v == w
  {
    hide Run, ChunksOk, IndexOk;
    forall n: nat | HasVersion(db, d, n)
      ensures 1 <= n <= db.documents[d].currentVersion
    {
      var v :| v in db.versions && db.versions[v].document == d && db.versions[v].number == n;
      assert VersionOk(db, db.versions[v]);
    }
  }

  /** After any run: a version is active exactly when it is the current version of a live document, and so is each of
      its chunks. */
  lemma {:induction false} ActiveIsCurrent(bases: set<(Id, Id)>, ops: seq<Op>, config: Config)
    requires config.Valid()
    ensures var db := Run(bases, ops, config);
            && (forall v | v in db.versions ::
                  && db.versions[v].document in db.documents
                  && (db.versions[v].status == Active <==>
                        && db.versions[v].number == db.documents[db.versions[v].document].currentVersion
                        && !db.documents[db.versions[v].document].isDeleted))
            && (forall c | c in db.chunks ::
                  && db.chunks[c].version in db.versions
                  && db.chunks[c].status == db.versions[db.chunks[c].version].status)
  {
    var db := Run(bases, ops, config);
    hide Run;
    assert forall v | v in db.versions :: VersionOk(db, db.versions[v]);
    assert forall c | c in db.chunks :: ChunkOk(db, db.chunks[c]);
  }

  /** After a delete nothing of the document is active. */
  lemma {:induction false} DeletedIsSilent(db: Db, project: Id, base: Id, document: Id)
    requires Inv(db) && Deletable(db, project, base, document)
    ensures var db' := DeleteDocument(db, project, base, document);
            && db'.documents[document].isDeleted && db'.documents[document].status == Deleted
            && (forall v | v in db'.versions && db'.versions[v].document == document ::
                  db'.versions[v].isDeleted && db'.versions[v].status == Deleted)
            && (forall c | c in db'.chunks && db'.chunks[c].document == document ::
                  db'.chunks[c].isDeleted && db'.chunks[c].status == Deleted)
  {
    DeleteKeepsInv(db, project, base, document);
    var db' := DeleteDocument(db, project, base, document);
    hide DeleteDocument;
    assert forall v | v in db'.versions :: VersionOk(db', db'.versions[v]);
    assert forall c | c in db'.chunks :: ChunkOk(db', db'.chunks[c]);
  }

  // --- Re-import ------------------------------------------------------------

  lemma {:induction false} CurrentIsLatest(db: Db, document: Id, v: Id)
    requires Inv(db) && document in db.documents && !db.documents[document].isDeleted
    requires v in db.versions && db.versions[v].document == document
    ensures db.versions[v].number == db.documents[document].currentVersion <==>
            IsLatest(db, db.documents[document].key.project, document, v)
  {
    var d := db.documents[document];
    assert HasVersion(db, document, d.currentVersion);
    var w :| w in db.versions && db.versions[w].document == document && db.versions[w].number == d.currentVersion;
    hide ChunksOk;
    assert VersionOk(db, db.versions[w]) && VersionOk(db, db.versions[v]);
    assert forall x | x in db.versions :: VersionOk(db, db.versions[x]);
    assert IsLiveVersion(db, d.key.project, document, w);
    assert SameSlot(db.versions[v], db.versions[w]) ==> v == w;
  }

  /** The text of the current version of a document. */
  predicate CurrentText(db: Db, document: Id, text: string)
    requires document in db.documents
  {
    exists v ::
      && v in db.versions && db.versions[v].document == document
      && db.versions[v].number == db.documents[document].currentVersion && db.versions[v].text == text
  }

  lemma {:induction false} UnchangedMeans(db: Db, document: Id, text: string)
    requires Inv(db) && document in db.documents
    ensures (exists v :: IsUnchanged(db, document, text, v)) <==>
            !db.documents[document].isDeleted && CurrentText(db, document, text)
  {
    hide IsLatest, ChunksOk;
    var d := db.documents[document];
    if v :| IsUnchanged(db, document, text, v) {
      assert v in db.versions && db.versions[v].document == document by { LatestIsRow(db, d.key.project, document, v); }
      CurrentIsLatest(db, document, v);
    }
    if !d.isDeleted && CurrentText(db, document, text) {
      var v :| v in db.versions && db.versions[v].document == document
               && db.versions[v].number == d.currentVersion && db.versions[v].text == text;
      assert VersionOk(db, db.versions[v]);
      CurrentIsLatest(db, document, v);
      assert IsUnchanged(db, document, text, v);
    }
  }

  lemma {:induction false} LatestIsRow(db: Db, project: Id, document: Id, v: Id)
    requires IsLatest(db, project, document, v)
    ensures v in db.versions && db.versions[v].document == document
  {}

  /** An import changes nothing exactly when the live document's current version already has the normalized text. */
  lemma {:induction false} UnchangedIff(db: Db, request: ImportRequest, config: Config)
    requires config.Valid() && Inv(db)
    requires (request.key.project, request.key.base) in db.activeBases && Normalize(request.content) != ""
    ensures Import(db, request, config).0.Unchanged? <==>
            && request.key in db.refIndex
            && !db.documents[db.refIndex[request.key]].isDeleted
            && CurrentText(db, db.refIndex[request.key], Normalize(request.content))
    ensures Import(db, request, config).0.Unchanged? ==> Import(db, request, config).1 == db
  {
    hide Normalize, Pipeline, IsUnchanged, CurrentText, AddVersion, Supersede, ReopenDocument, CreateDocument;
    hide IdsOk, DocumentsOk, VersionsOk, ChunksOk;
    PipelineText(request.content, request.markdown, config);
    if request.key in db.refIndex {
      UnchangedMeans(db, db.refIndex[request.key], Normalize(request.content));
    }
  }

  lemma {:induction false} PipelineText(content: string, markdown: bool, config: Config)
    requires config.Valid()
    ensures Pipeline(content, markdown, config).Chunked? <==> Normalize(content) != ""
    ensures Pipeline(content, markdown, config).Chunked? ==>
              Pipeline(content, markdown, config).normalizedText == Normalize(content)
  {
    hide Normalize, ParentChunks;
  }

  lemma {:induction false} AddedIsCurrent(
    db: Db, request: ImportRequest, document: Id, text: string, drafts: seq<ChunkDraft>)
    requires document in db.documents
    ensures document in AddVersion(db, request, document, text, drafts).documents
    ensures AddVersion(db, request, document, text, drafts).documents == db.documents
    ensures AddVersion(db, request, document, text, drafts).activeBases == db.activeBases
    ensures AddVersion(db, request, document, text, drafts).refIndex == db.refIndex
    ensures CurrentText(AddVersion(db, request, document, text, drafts), document, text)
  {
    hide RowFor;
    var db' := AddVersion(db, request, document, text, drafts);
    assert db.nextId in db'.versions && db'.versions[db.nextId].document == document;
  }

  /** After a successful import the document is live and its current version has the normalized text. */
  lemma {:induction false} ImportedText(db: Db, request: ImportRequest, config: Config)
    requires config.Valid() && Inv(db)
    requires var result := Import(db, request, config).0; result.Created? || result.Versioned? || result.Unchanged?
    ensures var db' := Import(db, request, config).1;
            && db'.activeBases == db.activeBases && (request.key.project, request.key.base) in db.activeBases
            && Normalize(request.content) != ""
            && request.key in db'.refIndex && db'.refIndex[request.key] in db'.documents
            && !db'.documents[db'.refIndex[request.key]].isDeleted
            && CurrentText(db', db'.refIndex[request.key], Normalize(request.content))
  {
    hide Normalize, Pipeline, CurrentText, AddVersion, IsUnchanged, VersionsOk, ChunksOk, Supersede, ReopenDocument,
      IdsOk, DocumentsOk;
    PipelineText(request.content, request.markdown, config);
    var drafts := Pipeline(request.content, request.markdown, config).chunks;
    var text := Normalize(request.content);
    if request.key !in db.refIndex {
      AddedIsCurrent(CreateDocument(db, request), request, db.nextId, text, drafts);
    } else {
      var document := db.refIndex[request.key];
      UnchangedMeans(db, document, text);
      SupersedeDocuments(db, request.key.project, document);
      ReopenedRows(db, request, document);
      AddedIsCurrent(
        ReopenDocument(Supersede(db, request.key.project, document), request, document), request, document, text,
        drafts);
    }
  }

  /** Re-importing any content with the same normalized text, in particular that text itself, is `Unchanged` and
      changes no table. */
  lemma {:induction false} ReimportUnchanged(db: Db, request: ImportRequest, again: ImportRequest, config: Config)
    requires config.Valid() && Inv(db) && again.key == request.key
    requires var result := Import(db, request, config).0; result.Created? || result.Versioned? || result.Unchanged?
    requires again.content == Normalize(request.content) || Normalize(again.content) == Normalize(request.content)
    ensures var db' := Import(db, request, config).1;
            Inv(db') && Import(db', again, config).0.Unchanged? && Import(db', again, config).1 == db'
  {
    NormalizeIdempotent(request.content);
    hide Normalize, CurrentText, Import;
    ImportKeepsInv(db, request, config);
    ImportedText(db, request, config);
    UnchangedIff(Import(db, request, config).1, again, config);
  }

  // --- History and isolation ------------------------------------------------

  predicate SameVersion(v: Version, w: Version) {
    v.project == w.project && SameSlot(v, w) && v.text == w.text && v.chunkCount == w.chunkCount
  }

  predicate SameChunk(c: Chunk, e: Chunk) {
    e == c.(status := e.status, indexStatus := e.indexStatus, isDeleted := e.isDeleted)
  }

  /** From `db` to `db'` no row is lost, stored text never changes, and rows of documents other than `d` are
      untouched. */
  predicate Extends(db: Db, db': Db, d: Id) {
    && (forall v | v in db.versions ::
          v in db'.versions && SameVersion(db.versions[v], db'.versions[v])
          && (db.versions[v].document != d ==> db'.versions[v] == db.versions[v]))
    && (forall c | c in db.chunks ::
          c in db'.chunks && SameChunk(db.chunks[c], db'.chunks[c])
          && (db.chunks[c].document != d ==> db'.chunks[c] == db.chunks[c]))
    && (forall e | e in db.documents ::
          e in db'.documents && db'.documents[e].key == db.documents[e].key
          && (e != d ==> db'.documents[e] == db.documents[e]))
  }

  lemma {:induction false} AddVersionExtends(
    db: Db, mid: Db, request: ImportRequest, document: Id, text: string, drafts: seq<ChunkDraft>)
    requires Extends(db, mid, document) && document in mid.documents && IdsOk(db) && mid.nextId >= db.nextId
    ensures Extends(db, AddVersion(mid, request, document, text, drafts), document)
  {
    hide RowFor, SameVersion, SameChunk;
    var db' := AddVersion(mid, request, document, text, drafts);
    assert forall c | c in db.chunks :: c !in NewRows(request, document, mid.nextId, drafts, mid.nextId + 1, |drafts|);
  }

  /** The document an operation is about, if any; a new document gets the next identifier. */
  function Target(db: Db, op: Op): Id {
    match op
    case DoImport(request) => if request.key in db.refIndex then db.refIndex[request.key] else db.nextId
    case DoDelete(_, _, document) => document
  }

  lemma {:induction false} CreateExtends(db: Db, request: ImportRequest)
    requires Inv(db)
    ensures Extends(db, CreateDocument(db, request), db.nextId)
  {}

  lemma {:induction false} ReopenExtends(db: Db, request: ImportRequest, document: Id)
    requires Inv(db) && document in db.documents
    ensures Extends(db, ReopenDocument(Supersede(db, request.key.project, document), request, document), document)
  {
    hide IndexOk, IdsOk, DocumentsOk, VersionsOk, ChunksOk;
  }

  lemma {:induction false} DeleteExtends(db: Db, project: Id, base: Id, document: Id)
    requires Inv(db)
    ensures Extends(db, DeleteDocument(db, project, base, document), document)
  {
    hide Inv, SameVersion, SameChunk;
    if Deletable(db, project, base, document) {
      var db' := Delete(db, project, document);
      SameRows();
    } else {
      NothingExtends(db, document);
    }
  }

  lemma SameRows()
    ensures forall v: Version :: SameVersion(v, v) && SameVersion(v, DeletedVersion(v))
    ensures forall c: Chunk :: SameChunk(c, c) && SameChunk(c, DeletedChunk(c))
  {}

  lemma {:induction false} ImportExtends(db: Db, request: ImportRequest, config: Config)
    requires config.Valid() && Inv(db)
    ensures Extends(db, Import(db, request, config).1, Target(db, DoImport(request)))
  {
    hide Extends, AddVersion, IsUnchanged, Supersede, Pipeline, CreateDocument, ReopenDocument;
    hide DocumentsOk, VersionsOk, ChunksOk;
    NothingExtends(db, Target(db, DoImport(request)));
    match Pipeline(request.content, request.markdown, config) {
      case EmptyDocument =>
      case Chunked(text, drafts) =>
        var document := Target(db, DoImport(request));
        if request.key !in db.refIndex {
          CreateExtends(db, request);
          CreatedKey(db, request);
          AddVersionExtends(db, CreateDocument(db, request), request, document, text, drafts);
        } else {
          ReopenExtends(db, request, document);
          ReopenedKey(db, request, document);
          AddVersionExtends(db, ReopenDocument(Supersede(db, request.key.project, document), request, document),
                            request, document, text, drafts);
        }
    }
  }

  lemma {:induction false} NothingExtends(db: Db, d: Id)
    ensures Extends(db, db, d)
  {}

  /** Every operation keeps history and leaves all other documents alone. */
  lemma {:induction false} StepExtends(db: Db, op: Op, config: Config)
    requires config.Valid() && Inv(db)
    ensures Extends(db, Step(db, op, config), Target(db, op))
  {
    hide Import, DeleteDocument, Extends;
    match op {
      case DoImport(request) => ImportExtends(db, request, config);
      case DoDelete(project, base, document) => DeleteExtends(db, project, base, document);
    }
  }
}
