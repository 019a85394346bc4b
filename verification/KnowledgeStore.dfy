/** The ingestion store: the transactions as they update rows one by one. */
module KnowledgeStore {
  import opened Common
  import opened Chunking
  import opened ChunkingTheorems
  import opened KnowledgeState
  import opened KnowledgeLifecycle

  class KnowledgeIngestionStore {
    const config: Config
    var activeBases: set<(Id, Id)>
    var documents: map<Id, Document>
    var refIndex: map<DocumentKey, Id>
    var versions: map<Id, Version>
    var chunks: map<Id, Chunk>
    var nextId: Id

    ghost function Tables(): Db
      reads this
    {
      Db(activeBases, documents, refIndex, versions, chunks, nextId)
    }

    ghost predicate Valid()
      reads this
    {
      config.Valid() && Inv(Tables())
    }

    constructor (config: Config, activeBases: set<(Id, Id)>)
      requires config.Valid()
      ensures Valid() && this.config == config && Tables() == EmptyDb(activeBases)
    {
      this.config := config;
      this.activeBases := activeBases;
      documents, refIndex, versions, chunks, nextId := map[], map[], map[], map[], 0;
    }

    method GetLatestVersion(project: Id, document: Id) returns (latest: Option<Id>)
      ensures latest.Some? <==> exists v :: IsLatest(Tables(), project, document, v)
      ensures latest.Some? ==> IsLatest(Tables(), project, document, latest.value)
    {
      var live := map v | v in versions && versions[v].project == project && versions[v].document == document
                          && !versions[v].isDeleted :: versions[v].number;
      latest := None;
      var todo := live.Keys;
      ghost var seen: set<Id> := {};
      while todo != {}
        invariant todo + seen == live.Keys
        invariant latest.None? <==> seen == {}
        invariant latest.Some? ==> latest.value in live && forall w | w in seen :: live[w] <= live[latest.value]
        decreases todo
      {
        var v :| v in todo;
        if latest.None? || live[latest.value] < live[v] {
          latest := Some(v);
        }
        todo, seen := todo - {v}, seen + {v};
      }
      assert forall w | w in versions :: IsLiveVersion(Tables(), project, document, w) <==> w in live;
      if latest.Some? {
        assert IsLatest(Tables(), project, document, latest.value);
      }
    }

    method SupersedeVersions(project: Id, document: Id)
      modifies this`versions
      ensures versions == Supersede(old(Tables()), project, document).versions
    {
      var todo := set v | v in versions && versions[v].project == project && versions[v].document == document
                          && !versions[v].isDeleted;
      while todo != {}
        invariant todo <= old(versions).Keys == versions.Keys
        invariant forall v | v in versions ::
                    versions[v] == if IsLiveVersion(old(Tables()), project, document, v) && v !in todo
                                   then SupersededVersion(old(versions)[v]) else old(versions)[v]
        decreases todo
      {
        var v :| v in todo;
        versions := versions[v := versions[v].(status := Superseded)];
        todo := todo - {v};
      }
    }

    method SupersedeChunks(project: Id, document: Id)
      modifies this`chunks
      ensures chunks == Supersede(old(Tables()), project, document).chunks
    {
      var todo := set c | c in chunks && chunks[c].project == project && chunks[c].document == document
        && !chunks[c].isDeleted;
      ghost var matching := todo;
      while todo != {}
        invariant todo <= matching <= old(chunks).Keys == chunks.Keys
        invariant forall c | c in chunks ::
                    chunks[c] == if c in matching && c !in todo then SupersededChunk(old(chunks)[c]) else old(chunks)[c]
        decreases todo
      {
        var c :| c in todo;
        chunks := chunks[c := chunks[c].(status := Superseded, indexStatus := Stale)];
        todo := todo - {c};
      }
    }

    method SupersedePreviousVersions(project: Id, document: Id)
      modifies this`versions, this`chunks
      ensures Tables() == Supersede(old(Tables()), project, document)
    {
      SupersedeVersions(project, document);
      SupersedeChunks(project, document);
    }

    method DeleteVersions(project: Id, document: Id)
      requires document in documents
      modifies this`versions
      ensures versions == Delete(old(Tables()), project, document).versions
    {
      var todo := set v | v in versions && versions[v].project == project && versions[v].document == document;
      ghost var matching := todo;
      while todo != {}
        invariant todo <= matching <= old(versions).Keys == versions.Keys
        invariant forall v | v in versions ::
                    versions[v] == if v in matching && v !in todo then
                      DeletedVersion(old(versions)[v]) else old(versions)[v]
        decreases todo
      {
        var v :| v in todo;
        versions := versions[v := versions[v].(status := Deleted, ingestion := IngestionDeleted, isDeleted := true)];
        todo := todo - {v};
      }
    }

    method DeleteChunks(project: Id, document: Id)
      requires document in documents
      modifies this`chunks
      ensures chunks == Delete(old(Tables()), project, document).chunks
    {
      var todo := set c | c in chunks && chunks[c].project == project && chunks[c].document == document;
      ghost var matching := todo;
      while todo != {}
        invariant todo <= matching <= old(chunks).Keys == chunks.Keys
        invariant forall c | c in chunks ::
                    chunks[c] == if c in matching && c !in todo then DeletedChunk(old(chunks)[c]) else old(chunks)[c]
        decreases todo
      {
        var c :| c in todo;
        chunks := chunks[c := chunks[c].(status := Deleted, indexStatus := IndexDeleted, isDeleted := true)];
        todo := todo - {c};
      }
    }

    method DeleteDocument(project: Id, base: Id, document: Id) returns (found: bool)
      requires Valid()
      modifies this`documents, this`versions, this`chunks
      ensures Valid() && Tables() == KnowledgeState.DeleteDocument(old(Tables()), project, base, document)
      ensures found == Deletable(old(Tables()), project, base, document)
    {
      hide Inv;
      DeleteKeepsInv(Tables(), project, base, document);
      found := document in documents && !documents[document].isDeleted
               && documents[document].key.project == project && documents[document].key.base == base;
      if !found {
        return;
      }
      DeleteVersions(project, document);
      DeleteChunks(project, document);
      documents := documents[document := documents[document].(status := Deleted, isDeleted := true)];
    }

    method CreateChunk(request: ImportRequest, document: Id, version: Id, draft: ChunkDraft, parent: Option<Id>)
      returns (id: Id)
      modifies this`chunks, this`nextId
      ensures id == old(nextId) && nextId == id + 1
      ensures chunks == old(chunks)[id := ChunkRow(request, document, version, draft, parent)]
    {
      id := nextId;
      var preview := if |draft.text| <= 500 then draft.text else draft.text[..500];
      chunks := chunks[id := Chunk(
                         request.key.project, request.key.base, document, version, parent, draft.ref, draft.kind,
                         draft.ordinal, preview, request.classification, request.environment, Active, Pending, false)];
      nextId := nextId + 1;
    }

    method CreateParents(
      request: ImportRequest, document: Id, version: Id, drafts: seq<ChunkDraft>, ghost parentCount: nat)
      returns (parentChunks: map<string, Id>)
      requires DraftsOk(drafts) && ParentsFirst(drafts, parentCount)
      modifies this`chunks, this`nextId
      ensures chunks == old(chunks) + NewRows(request, document, version, drafts, old(nextId), parentCount)
      ensures nextId == old(nextId) + parentCount
      ensures forall j | 0 <= j < parentCount ::
                drafts[j].ref in parentChunks && parentChunks[drafts[j].ref] == old(nextId) + j
    {
      hide ChunkRow, RowFor, NewRows;
      parentChunks := map[];
      NoRows(request, document, version, drafts, nextId, chunks);
      for i := 0 to |drafts|
        invariant nextId == old(nextId) + Least(i, parentCount)
        invariant chunks == old(chunks)
                  + NewRows(request, document, version, drafts, old(nextId), Least(i, parentCount))
        invariant forall j | 0 <= j < Least(i, parentCount) ::
                    drafts[j].ref in parentChunks && parentChunks[drafts[j].ref] == old(nextId) + j
      {
        var draft := drafts[i];
        if draft.kind != Parent {
          continue;
        }
        var id := CreateChunk(request, document, version, draft, None);
        RowIs(request, document, version, drafts, old(nextId), i, parentCount);
        NextRow(request, document, version, drafts, old(nextId), i, old(chunks));
        parentChunks := parentChunks[draft.ref := id];
      }
    }

    /** Adds the rows of all drafts: parents first, then children that look their parent row up by reference. */
    method CreateChunks(
      request: ImportRequest, document: Id, version: Id, drafts: seq<ChunkDraft>, ghost parentCount: nat)
      requires DraftsOk(drafts) && ParentsFirst(drafts, parentCount)
      modifies this`chunks, this`nextId
      ensures chunks == old(chunks) + NewRows(request, document, version, drafts, old(nextId), |drafts|)
      ensures nextId == old(nextId) + |drafts|
    {
      hide ChunkRow, RowFor, NewRows, IndexOfParent;
      var parentChunks := CreateParents(request, document, version, drafts, parentCount);
      for i := 0 to |drafts|
        invariant nextId == old(nextId) + Most(i, parentCount)
        invariant chunks == old(chunks) + NewRows(request, document, version, drafts, old(nextId), Most(i, parentCount))
      {
        var draft := drafts[i];
        if draft.kind != Child {
          continue;
        }
        RowIs(request, document, version, drafts, old(nextId), i, parentCount);
        var parent := if draft.parentRef.Some? then Some(parentChunks[draft.parentRef.value]) else None;
        var _ := CreateChunk(request, document, version, draft, parent);
        NextRow(request, document, version, drafts, old(nextId), i, old(chunks));
      }
    }

    /** Writes the new version row and all its chunk rows. */
    method WriteVersion(
      request: ImportRequest, document: Id, text: string, drafts: seq<ChunkDraft>, ghost parentCount: nat)
      returns (version: Id)
      requires document in documents && DraftsOk(drafts) && ParentsFirst(drafts, parentCount)
      modifies this`versions, this`chunks, this`nextId
      ensures version == old(nextId) && Tables() == AddVersion(old(Tables()), request, document, text, drafts)
    {
      hide NewRows, DraftsOk, ParentsFirst;
      version := nextId;
      versions := versions[version := Version(
                             request.key.project, document, documents[document].currentVersion, text, |drafts|,
                             Active, Ready, false)];
      nextId := nextId + 1;
      CreateChunks(request, document, version, drafts, parentCount);
    }

    method AddDocument(request: ImportRequest) returns (document: Id)
      modifies this`documents, this`refIndex, this`nextId
      ensures document == old(nextId) && Tables() == CreateDocument(old(Tables()), request)
    {
      document := nextId;
      documents := documents[document := Document(request.key, request.title, 1, Active, false)];
      refIndex := refIndex[request.key := document];
      nextId := nextId + 1;
    }

    method Reopen(request: ImportRequest, document: Id)
      requires document in documents
      modifies this`documents, this`versions, this`chunks
      ensures Tables() == ReopenDocument(Supersede(old(Tables()), request.key.project, document), request, document)
    {
      hide Supersede;
      SupersedePreviousVersions(request.key.project, document);
      var row := documents[document];
      documents := documents[document := Document(row.key, request.title, row.currentVersion + 1, Active, false)];
    }

    /** The latest version, when it is ready and already has this text. */
    method FindUnchanged(document: Id, text: string) returns (same: Option<Id>)
      requires Valid() && document in documents
      ensures forall v: Id :: IsUnchanged(Tables(), document, text, v) <==> same == Some(v)
    {
      if documents[document].isDeleted {
        DeletedNotUnchanged(Tables(), document, text);
        return None;
      }
      var latest := GetLatestVersion(documents[document].key.project, document);
      UnchangedUnique(Tables(), document, text, latest);
      same := if latest.Some? && versions[latest.value].text == text && versions[latest.value].ingestion == Ready
              then latest else None;
    }

    method ImportTextDocument(request: ImportRequest) returns (result: ImportResult)
      requires Valid()
      modifies this`documents, this`refIndex, this`versions, this`chunks, this`nextId
      ensures Valid() && (result, Tables()) == Import(old(Tables()), request, config)
    {
      hide Inv, Pipeline, IsUnchanged, DraftsOk, ParentsFirst, Supersede, AddVersion, IdsOk, Import;
      hide CreateDocument, ReopenDocument;
      ImportKeepsInv(Tables(), request, config);
      InvParts(Tables());
      ImportRejects(Tables(), request, config);
      if (request.key.project, request.key.base) !in activeBases {
        return NoSuchBase;
      }
      var chunked := BuildChunks(request.content, request.markdown, config);
      if chunked.EmptyDocument? {
        return EmptyContent;
      }
      var text, drafts := chunked.normalizedText, chunked.chunks;
      PipelineDraftsOk(request.content, request.markdown, config);
      PipelineParentsFirst(request.content, request.markdown, config);
      ghost var parentCount := |Parents(request.content, request.markdown, config)|;
      if request.key !in refIndex {
        ImportNew(Tables(), request, config, text, drafts);
        var document := AddDocument(request);
        var version := WriteVersion(request, document, text, drafts, parentCount);
        return Created(version);
      }
      var document := refIndex[request.key];
      var same := FindUnchanged(document, text);
      if same.Some? {
        ImportSame(Tables(), request, config, text, drafts, same.value);
        return Unchanged(same.value);
      }
      ImportNext(Tables(), request, config, text, drafts);
      Reopen(request, document);
      var version := WriteVersion(request, document, text, drafts, parentCount);
      result := Versioned(version);
    }
  }

  lemma {:induction false} ImportRejects(db: Db, request: ImportRequest, config: Config)
    requires config.Valid() && IndexOk(db)
    ensures (request.key.project, request.key.base) !in db.activeBases ==>
            Import(db, request, config) == (NoSuchBase, db)
    ensures (request.key.project, request.key.base) in db.activeBases
            && Pipeline(request.content, request.markdown, config).EmptyDocument? ==>
              Import(db, request, config) == (EmptyContent, db)
  {
    hide Pipeline, IsUnchanged;
  }

  predicate Importable(db: Db, request: ImportRequest, config: Config, text: string, drafts: seq<ChunkDraft>) {
    && config.Valid() && IndexOk(db) && (request.key.project, request.key.base) in db.activeBases
    && Pipeline(request.content, request.markdown, config) == Chunked(text, drafts)
  }

  lemma {:induction false} ImportNew(
    db: Db, request: ImportRequest, config: Config, text: string, drafts: seq<ChunkDraft>)
    requires Importable(db, request, config, text, drafts) && request.key !in db.refIndex
    ensures db.nextId in CreateDocument(db, request).documents
    ensures CreateDocument(db, request).nextId == db.nextId + 1
    ensures Import(db, request, config) ==
            (Created(db.nextId + 1), AddVersion(CreateDocument(db, request), request, db.nextId, text, drafts))
  {
    hide Pipeline, AddVersion;
  }

  lemma {:induction false} ImportSame(
    db: Db, request: ImportRequest, config: Config, text: string, drafts: seq<ChunkDraft>, v: Id)
    requires Importable(db, request, config, text, drafts) && request.key in db.refIndex
    requires IsUnchanged(db, db.refIndex[request.key], text, v)
    requires forall w :: IsUnchanged(db, db.refIndex[request.key], text, w) ==> w == v
    ensures Import(db, request, config) == (Unchanged(v), db)
  {
    hide Pipeline, AddVersion, IsUnchanged;
  }

  lemma {:induction false} ImportNext(
    db: Db, request: ImportRequest, config: Config, text: string, drafts: seq<ChunkDraft>)
    requires Importable(db, request, config, text, drafts) && request.key in db.refIndex
    requires !exists v :: IsUnchanged(db, db.refIndex[request.key], text, v)
    ensures var document := db.refIndex[request.key];
            && document in Supersede(db, request.key.project, document).documents
            && document in ReopenDocument(Supersede(db, request.key.project, document), request, document).documents
            && ReopenDocument(Supersede(db, request.key.project, document), request, document).nextId == db.nextId
    ensures var document := db.refIndex[request.key];
            var reopened := ReopenDocument(Supersede(db, request.key.project, document), request, document);
            Import(db, request, config) ==
            (Versioned(db.nextId), AddVersion(reopened, request, document, text, drafts))
  {
    hide Pipeline, AddVersion, IsUnchanged;
  }

  function Least(i: nat, n: nat): nat { if i <= n then i else n }

  function Most(i: nat, n: nat): nat { if i >= n then i else n }

  predicate ParentsFirst(drafts: seq<ChunkDraft>, parentCount: nat) {
    parentCount <= |drafts| && forall i | 0 <= i < |drafts| :: drafts[i].kind == Parent <==> i < parentCount
  }

  lemma {:induction false} PipelineParentsFirst(content: string, markdown: bool, config: Config)
    requires config.Valid() && Pipeline(content, markdown, config).Chunked?
    ensures ParentsFirst(Pipeline(content, markdown, config).chunks, |Parents(content, markdown, config)|)
  {
    PipelineChunks(content, markdown, config);
    hide Pipeline, Parents;
    var drafts, parents := Pipeline(content, markdown, config).chunks, Parents(content, markdown, config);
    forall i | 0 <= i < |drafts|
      ensures drafts[i].kind == Parent <==> i < |parents|
    {
      OrdinalsAndParents(content, markdown, config, parents, drafts, i);
    }
  }

  lemma {:induction false} InvParts(db: Db)
    requires Inv(db)
    ensures IndexOk(db) && IdsOk(db)
  {}

  lemma {:induction false} NoRows(
    request: ImportRequest, document: Id, version: Id, drafts: seq<ChunkDraft>, base: Id, chunks: map<Id, Chunk>)
    ensures chunks + NewRows(request, document, version, drafts, base, 0) == chunks
  {}

  /** Adding row `base + i` after the first `i` rows. */
  lemma {:induction false} NextRow(
    request: ImportRequest, document: Id, version: Id, drafts: seq<ChunkDraft>, base: Id, i: nat,
    chunks: map<Id, Chunk>)
    requires i < |drafts|
    ensures chunks + NewRows(request, document, version, drafts, base, i + 1) ==
            (chunks + NewRows(request, document, version, drafts, base, i))[
              base + i := RowFor(request, document, version, drafts, base, base + i)]
  {
    hide RowFor;
  }

  /** The specified row of draft `i`, with the parent row that the importer looks up. */
  lemma {:induction false} RowIs(
    request: ImportRequest, document: Id, version: Id, drafts: seq<ChunkDraft>, base: Id, i: nat, parentCount: nat)
    requires DraftsOk(drafts) && ParentsFirst(drafts, parentCount) && i < |drafts|
    ensures i < parentCount ==>
              RowFor(request, document, version, drafts, base, base + i) ==
              ChunkRow(request, document, version, drafts[i], None)
    ensures i >= parentCount ==>
              && drafts[i].parentRef.Some?
              && (var j := IndexOfParent(drafts, drafts[i].parentRef.value);
                  && j < parentCount && drafts[j].ref == drafts[i].parentRef.value
                  && RowFor(request, document, version, drafts, base, base + i) ==
                     ChunkRow(request, document, version, drafts[i], Some(base + j)))
  {
    hide ChunkRow;
  }

  lemma {:induction false} UnchangedUnique(db: Db, document: Id, text: string, latest: Option<Id>)
    requires Inv(db) && document in db.documents && !db.documents[document].isDeleted
    requires latest.Some? <==> exists v :: IsLatest(db, db.documents[document].key.project, document, v)
    requires latest.Some? ==> IsLatest(db, db.documents[document].key.project, document, latest.value)
    ensures latest.Some? ==> latest.value in db.versions
    ensures forall v :: IsUnchanged(db, document, text, v) <==>
              latest == Some(v) && db.versions[v].text == text && db.versions[v].ingestion == Ready
  {
    hide ChunksOk, IndexOk, IdsOk, DocumentsOk;
    forall v: Id | IsLatest(db, db.documents[document].key.project, document, v)
      ensures latest == Some(v)
    {
      CurrentIsLatest(db, document, v);
      CurrentIsLatest(db, document, latest.value);
      assert SameSlot(db.versions[v], db.versions[latest.value]);
    }
  }

  lemma {:induction false} DeletedNotUnchanged(db: Db, document: Id, text: string)
    requires document in db.documents && db.documents[document].isDeleted
    ensures !exists v :: IsUnchanged(db, document, text, v)
  {}
}
