# Aegis Flow: a verified model

The project models five parts of the Aegis Flow backend and proves what they promise over all inputs and all runs.

- **Document chunking.** Text is normalized, cut into Markdown sections, packed into parents under a token budget and
  windowed into overlapping children. The modules `Characters`, `Tokenizer`, `Normalization`, `MarkdownSections`,
  `TokenWindows`, `ChunkRefs`, `Chunking`, `ChunkingTheorems` and `HeadingPaths` follow the stages. The tokenizer is the
  real maximal-munch scan, and token conservation holds from the raw content to the parents. `TokenShapes` says what one
  token is, `ChunkFormats` what the content format does, `OpenHeadings` which headings a Markdown chunk is filed under.
- **Document lifecycle and retrieval.** `KnowledgeState` says what import and delete do to the tables, `KnowledgeStore`
  does it with loops over mutable tables, `KnowledgeLifecycle` proves what every run keeps, `ImportedRows` what an import
  leaves for retrieval to find. `RankFusion` and `Retrieval` read these tables, `RetrievalScores` says what the scores are.
- **Artifact cleanup.** `ArtifactCleanup` is the deletion run on a mutable admission table and object store,
  `CleanupTheorems` its accounting.
- **Approval protocol.** `MatchSignature` and `PolicyRules` are the rules, their evaluator and validator; `PolicyVersions`
  the versioned policies and `PolicyRaces` their interleaved publishers; `ApprovalState` the state machine of the tool,
  shell and model gateways with a log of side effects; `ApprovalInvariant` what every step keeps; `ApprovalTheorems` what
  every run guarantees; `GatewayDecisions` what each gateway does, told from policy rows, rules and request fields alone;
  `ApprovalGateways` the services that implement it step by step and keep the invariant.
- **Derived views.** `TraceSpans` with `SpanColumns`, `ProjectAccess` with `AccessAnswers`, and `PromptReleases` with `ReleaseTheorems`.

Where the source loops over or assigns to state, a method does so here and its postcondition equates the new state with a
specification function; the theorems are about these functions and runs of them. Run `dafny verify dfyconfig.toml` to
check the whole project.

Four findings about the code itself:

- The conflict test of the policy validator compares joined references. `PolicyRules.ConflictTestRightIff` says exactly when
  it is right. Non-empty references without the two separators rule out false conflicts, references that are not repeated
  rule out missed ones (`NoFalseConflict`, `NoMissedConflict`); a comma, a bar or an empty reference can make two rules
  collide that match different requests (`CommaFalseConflict`, `BarFalseConflict`, `EmptyFalseConflict`), and repeating a
  reference can hide a contradiction (`RepeatMissedConflict`).
- Two publishers of one policy key can both stay published: the table has no index on the published row, and the conflict
  handler of publishing never fires. `PolicyRaces.TwoPublishedIff` says exactly when, `ServedIff` which version is then
  served; a publisher that nobody overtakes leaves its version alone (`CommitLeaves`).
- A model call that fails or returns invalid output leaves its approval usable; a tool call or shell run uses its
  approval up whatever its outcome (`ApprovalTheorems.ModelRetry`, `ApprovalTheorems.AtMostOncePerTask`).
- A shell run waiting for approval is shown as failed in traces, while waiting tools and models are shown as pending
  (`TraceSpans.StatusesShown`).

## Model

| member | source | states |
|---|---|---|
| Tokenizer.TokensConcat | backend/app/knowledge/ingestion.py:9 | Tokenizing distributes over a cut unless the cut splits a run of word characters |
| Tokenizer.TokensOfJoin | backend/app/knowledge/ingestion.py:9 | Joining texts with a non-empty whitespace separator adds up their token sequences |
| Tokenizer.MatchesAreTokens | backend/app/knowledge/ingestion.py:225 | The pattern scanner yields one match per token, in order, and each match spans exactly the text of its token |
| Tokenizer.MatchesAscend | backend/app/knowledge/ingestion.py:225 | Matches do not overlap and lie inside the text |
| Tokenizer.Locality | backend/app/knowledge/ingestion.py:219-242 | Cutting a text from the start of match i to the end of match k gives a text whose tokens are exactly tokens i..k and on which `strip` does nothing |
| TokenShapes.WordIsToken | backend/app/knowledge/ingestion.py:9 | A maximal run of letters, digits and underscores is one token, whatever stands around it |
| TokenShapes.SignIsToken | backend/app/knowledge/ingestion.py:9 | Every other character, a Han character included, is a token by itself in any context, except that whitespace is none |
| Normalization.NormalizeKeepsTokens | backend/app/knowledge/ingestion.py:172-176 | Normalizing a document changes only whitespace: the token sequence is that of the raw content |
| Normalization.NormalizeIsNormal | backend/app/knowledge/ingestion.py:172-176 | The normalized text has no carriage return, no tab, no trailing whitespace before a newline, no three newlines in a row, and no surrounding whitespace |
| Normalization.NormalizeIdentity | backend/app/knowledge/ingestion.py:172-176 | A text with these properties is left alone |
| Normalization.NormalizeIdempotent | backend/app/knowledge/ingestion.py:172-176 | Normalizing twice is normalizing once |
| MarkdownSections.ExtractMarkdownSections | backend/app/knowledge/ingestion.py:187-216 | The line loop with its heading stack computes the section list of the recursive definition |
| MarkdownSections.SectionsKeepTokens | backend/app/knowledge/ingestion.py:187-216 | Sectioning partitions the tokens of the text among the sections, in order |
| MarkdownSections.OutlinePush | backend/app/knowledge/ingestion.py:203-213 | Popping the stack while its top is not above the new heading keeps exactly the headings that no later heading of the same or a smaller level closes |
| MarkdownSections.SectionProvenance | backend/app/knowledge/ingestion.py:187-216 | Every section is one maximal block of lines that starts at a heading or at the top, and its heading path lists the headings open over that block |
| ChunkFormats.ParseHeadingIff | backend/app/knowledge/ingestion.py:10 | A line is a heading of level n with this title exactly when it is n hashes, 1 <= n <= 6, a whitespace character and a non-empty rest whose stripped form is the title |
| ChunkFormats.HeadingRoundTrip | backend/app/knowledge/ingestion.py:10 | n hashes, a space and a trimmed, non-empty title parse to that level and that title |
| TokenWindows.SplitTextByTokenLimit | backend/app/knowledge/ingestion.py:219-242 | The window loop terminates and computes the cuts of the recursive definition, for every overlap, including those not below the target |
| TokenWindows.WindowArithmetic | backend/app/knowledge/ingestion.py:20-28 | For 0 <= overlap < target < n the windows start target - overlap apart, adjacent ones share exactly overlap tokens, they cover 0..n, and there are ceil((n - overlap) / (target - overlap)) of them |
| TokenWindows.SplitPieces | backend/app/knowledge/ingestion.py:219-242 | The pieces of a text are exactly the windows of its tokens, trimmed, not empty and within the budget, as many as the closed form says |
| TokenWindows.TokenInPiece | backend/app/knowledge/ingestion.py:219-242 | Windows leave no gap: each token of a text is a token of one of its pieces, at the place that the piece's window gives it |
| TokenWindows.SplitKeepsTokens | backend/app/knowledge/ingestion.py:219-242 | Without overlap the pieces together have exactly the tokens of the text: cuts fall only between tokens |
| ChunkRefs.RefsInjective | backend/app/knowledge/ingestion.py:119-155 | Parent and child references are pairwise distinct for unbounded counts: neither the padding to four digits nor the dash creates a collision |
| ChunkRefs.RefsSpell | backend/app/knowledge/ingestion.py:84-155 | A reference reads parent-0001 or child-0001-0001: each number is spelled by at least four digits, with no leading zero beyond the fourth, that evaluate to it |
| Chunking.BuildParentChunks | backend/app/knowledge/ingestion.py:107-169 | The packing loop with its open group, running token count, flushes and split oversized sections computes the numbered parents |
| Chunking.BuildChildren | backend/app/knowledge/ingestion.py:84-98 | The child loops with their running ordinal compute the children of all parents |
| Chunking.BuildChunks | backend/app/knowledge/ingestion.py:61-105 | The whole pipeline: empty result for empty text, else the parents followed by their children |
| ChunkingTheorems.GroupsAreGreedy | backend/app/knowledge/ingestion.py:127-167 | The packing loop groups consecutive sections, loses none, keeps every group but a single oversized section within the budget, and closes a group only when the next section would not fit |
| ChunkingTheorems.GreedyUnique | backend/app/knowledge/ingestion.py:127-167 | These properties determine the grouping: any greedy grouping of the sections is the one the loop computes |
| ChunkingTheorems.ParentsConserveTokens | backend/app/knowledge/ingestion.py:61-242 | Token conservation end to end: for every content and either format the parents, in order, have exactly the tokens of the raw content |
| ChunkingTheorems.ParentsWithinBudget | backend/app/knowledge/ingestion.py:107-169 | Every parent records its real token count, which is positive and at most the parent target |
| ChunkingTheorems.ChildProvenance | backend/app/knowledge/ingestion.py:84-98 | Child number k of the output is piece `index` of parent j, where k counts all pieces before it; its parent reference and number say so |
| ChunkingTheorems.ChildIsWindow | backend/app/knowledge/ingestion.py:79-97 | Every child is a window of its parent's tokens, at its place, trimmed, not empty and at most the child target; a parent has as many children as the closed form says |
| ChunkingTheorems.TokenReachesChild | backend/app/knowledge/ingestion.py:61-105 | No token is lost on the way to the children: for every content, format and overlap each token of the raw content is a token of some child, at the place given by the earlier parents and the child's window |
| ChunkingTheorems.OrdinalsAndParents | backend/app/knowledge/ingestion.py:76-98 | Ordinals are 1..N in output order, parents come first, and every child names a parent of the same result |
| ChunkingTheorems.RefsDistinct | backend/app/knowledge/ingestion.py:76-98 | No two chunks of one document share a reference |
| HeadingPaths.MergedPaths | backend/app/knowledge/ingestion.py:245-250 | Merging heading paths yields exactly the non-empty ones, each once, in the order of first occurrence |
| HeadingPaths.InOrderUnique | backend/app/knowledge/ingestion.py:245-250 | There is only one such list |
| HeadingPaths.ParentHeadingPath | backend/app/knowledge/ingestion.py:107-169 | For any greedy grouping of the sections, in particular the one packed, every parent holds tokens of one group, and its heading path joins the non-empty paths of the sections of that group, each once, in order of first occurrence |
| HeadingPaths.ChildHeadingPath | backend/app/knowledge/ingestion.py:84-98 | Every child carries the heading path of the parent it names |
| ChunkFormats.PlainChunks | backend/app/knowledge/ingestion.py:67-105 | A plain document has no headings: every chunk has an empty heading path and the parents are the windows of the normalized text; a text within the parent budget is one parent by itself, even if its lines start with hashes |
| OpenHeadings.SectionsTile | backend/app/knowledge/ingestion.py:187-216 | The sections of a text tile its lines without gap, and over each line of a section exactly its heading path is open |
| OpenHeadings.MarkdownPaths | backend/app/knowledge/ingestion.py:67-169 | In a Markdown document every parent belongs to a stretch of parents that holds a range of whole sections of the normalized text, and its heading path lists the outline titles open over these lines, each path once, in order; stated on the lines alone |
| ChunkingTheorems.EmptyIffBlank | backend/app/knowledge/ingestion.py:67-70 | A document is rejected as empty exactly when its content is blank |
| ChunkingTheorems.PipelineOfNormalized | backend/app/knowledge/ingestion.py:61-105 | Chunking the normalized text gives the same result as chunking the content |
| KnowledgeStore.KnowledgeIngestionStore.ImportTextDocument | backend/app/knowledge/sqlalchemy_store.py:84-232 | The import transaction on mutable tables: rejects an unknown base or empty content, returns unchanged, creates, or supersedes and adds a version with its chunk rows |
| KnowledgeStore.KnowledgeIngestionStore.DeleteDocument | backend/app/knowledge/sqlalchemy_store.py:254-314 | The delete transaction: marks the document, its versions and its chunks, or finds nothing |
| KnowledgeStore.KnowledgeIngestionStore.GetLatestVersion | backend/app/knowledge/sqlalchemy_store.py:511-526 | Finds a version exactly when the document has one not deleted, and then one with the highest number |
| KnowledgeStore.KnowledgeIngestionStore.SupersedePreviousVersions | backend/app/knowledge/sqlalchemy_store.py:528-551 | Supersedes every version and chunk of the document that is not deleted, and nothing else |
| KnowledgeStore.KnowledgeIngestionStore.CreateChunks | backend/app/knowledge/sqlalchemy_store.py:189-221 | Writes one row per draft; each child row points at the row of the parent draft it names, found through the dictionary of parents |
| KnowledgeLifecycle.PipelineDraftsOk | backend/app/knowledge/sqlalchemy_store.py:189-221 | The parent lookup of the importer never misses and its references satisfy the unique constraint |
| KnowledgeLifecycle.ImportKeepsInv | backend/app/knowledge/sqlalchemy_store.py:96-232 | Every import keeps the table invariant: version numbers 1..current, active exactly the current version of a live document, chunks follow their version |
| KnowledgeLifecycle.DeleteKeepsInv | backend/app/knowledge/sqlalchemy_store.py:262-312 | Every delete keeps the table invariant |
| KnowledgeLifecycle.StepKeepsInv | backend/app/knowledge/sqlalchemy_store.py:84-314 | Every import or delete keeps the table invariant |
| KnowledgeLifecycle.VersionNumbers | backend/app/knowledge/sqlalchemy_store.py:96-232 | After every sequence of imports and deletes the versions of a document are numbered 1..current_version without gap or repeat |
| KnowledgeLifecycle.ActiveIsCurrent | backend/app/knowledge/sqlalchemy_store.py:96-232 | After every sequence a version, and each of its chunks, is active exactly when it is the current version of a live document |
| KnowledgeLifecycle.DeletedIsSilent | backend/app/knowledge/sqlalchemy_store.py:262-312 | After a delete no version and no chunk of the document is active |
| KnowledgeLifecycle.UnchangedIff | backend/app/knowledge/sqlalchemy_store.py:105-119 | An import answers unchanged, and then writes nothing, exactly when the live document's current version already has the normalized text |
| KnowledgeLifecycle.ImportedText | backend/app/knowledge/sqlalchemy_store.py:96-232 | After a successful import the document is live and its current version holds the normalized text |
| ImportedRows.ImportAnswers | backend/app/knowledge/sqlalchemy_store.py:84-149 | Which answer an import gives: unknown base, empty content exactly for blank content, created exactly when no document has the key; only a written version changes a table |
| ImportedRows.ImportedVersion | backend/app/knowledge/sqlalchemy_store.py:122-187 | After an import that wrote a version the document has its new title and number, is active, and the version row has the project, document, number, text, status and chunk count |
| ImportedRows.ImportedRows | backend/app/knowledge/sqlalchemy_store.py:189-221 | The rows of the new version are one for each chunk draft: reference, kind, ordinal, the first 500 characters as preview, the parent row of the draft it names, and the classification and environment of the request |
| ImportedRows.ImportedIsFound | backend/app/retrieval/sqlalchemy_store.py:221-273 | From import to retrieval: a new row is found exactly by a request that searches its project, if it is a child chunk, and whose filters are empty or name the imported base, classification and environment |
| ImportedRows.DeleteActsIff | backend/app/knowledge/sqlalchemy_store.py:254-314 | A delete changes the tables exactly when the project and base have the document and it is not deleted, and touches no row of another document |
| ImportedRows.ImportRetires | backend/app/knowledge/sqlalchemy_store.py:528-551 | A new version supersedes exactly the versions and chunks of its document that are not deleted, leaves these chunks stale, and changes no other row |
| ImportedRows.DeleteRetires | backend/app/knowledge/sqlalchemy_store.py:262-312 | A delete marks the document, every version and every chunk of it as deleted, and takes them out of ingestion and index |
| KnowledgeLifecycle.ReimportUnchanged | backend/app/knowledge/sqlalchemy_store.py:96-119 | Re-importing any content with the same normalized text, in particular the normalized text itself, is unchanged and changes no table |
| KnowledgeLifecycle.StepExtends | backend/app/knowledge/sqlalchemy_store.py:84-314 | No import or delete loses a row, rewrites stored text, or touches rows of another document |
| RankFusion.ReciprocalRankFusion | backend/app/retrieval/ranking.py:37-70 | The dictionary loops and the sort return one fused candidate per chunk seen: summed score, best rank, merged source label, sorted by score, rank and id |
| RankFusion.SortedUnique | backend/app/retrieval/ranking.py:58-70 | The sort key is total: a sorted list is determined by its members |
| RankFusion.FusionOrderInsensitive | backend/app/retrieval/ranking.py:37-70 | Permuting the argument lists gives the same sequence of chunk, score, rank and source label |
| RankFusion.FusingWithNothing | backend/app/retrieval/ranking.py:37-70 | Fusing a ranked list with an empty one keeps its chunks in the same order |
| RetrievalScores.FoundByBoth | backend/app/retrieval/ranking.py:37-70 | In hybrid mode a chunk found at ranks a and b has the score 1/(60 + a) + 1/(60 + b), the better rank, and the sources of both searches |
| RetrievalScores.FoundByOne | backend/app/retrieval/ranking.py:37-70 | A chunk found by one search only, at rank a, has the score 1/(60 + a) and keeps rank and source; a missing rank is the place in the list |
| Retrieval.LoadActiveChunkRows | backend/app/retrieval/sqlalchemy_store.py:221-273 | Returns active child rows of active documents and current, active versions in ordinal order, and leaves a row out only when the limit is reached by rows not after it |
| Retrieval.CanReadMonotone | backend/app/retrieval/sqlalchemy_store.py:275-299 | Adding subjects never loses read access |
| Retrieval.AllowedMonotone | backend/app/retrieval/sqlalchemy_store.py:275-299 | Adding subjects never shrinks the allowed set |
| Retrieval.CanReadIff | backend/app/retrieval/sqlalchemy_store.py:275-299 | A chunk is readable exactly when no active read entry of the project on its base, its document or the chunk itself is without a fellow entry at the same scope that names one of the subjects |
| Retrieval.RankKeywordCandidates | backend/app/retrieval/sqlalchemy_store.py:334-360 | Ranks exactly the records with a positive score, best first, ties by id, ranks counted from 1 |
| Retrieval.KeywordRankingUnique | backend/app/retrieval/sqlalchemy_store.py:334-360 | The query and the records determine the keyword ranking |
| RetrievalScores.KeywordScoreCounts | backend/app/retrieval/sqlalchemy_store.py:334-427 | The keyword score of a record is the number of different terms, words or Han characters in lower case, that the query uses and the record mentions in its preview, title, document reference or chunk reference |
| RetrievalScores.KeywordRankingLists | backend/app/retrieval/sqlalchemy_store.py:334-360 | The keyword ranking lists exactly the records that share a term with the query, each once, with its score, rank and source; the higher score first, of equal scores the smaller identifier |
| Retrieval.HybridWithoutHits | backend/app/retrieval/sqlalchemy_store.py:82-112 | Fusing the keyword ranking with no vector hits keeps its chunks in the same order |
| Retrieval.Prefilter | backend/app/retrieval/sqlalchemy_store.py:73-80 | Keeps exactly the records that no access entry blocks and counts exactly the blocked ones as denied |
| Retrieval.Recheck | backend/app/retrieval/sqlalchemy_store.py:114-123 | The recheck after fusion denies nothing that passed the prefilter |
| Retrieval.VectorCandidates | backend/app/retrieval/sqlalchemy_store.py:91-104 | Keeps exactly the hits on allowed chunks, in the order of the search |
| RetrievalScores.HitsKept | backend/app/retrieval/sqlalchemy_store.py:91-104 | The vector candidates are exactly the hits on allowed chunks, in order, each with its identifier, rank and score |
| Retrieval.Rank | backend/app/retrieval/sqlalchemy_store.py:82-112 | The candidates of the mode: keyword ranking, vector hits, or both fused; all of them allowed |
| Retrieval.Query | backend/app/retrieval/sqlalchemy_store.py:63-145 | On every consistent knowledge state: for every reranker at most top_k results, the first of the reranked candidates of the allowed records; each is a child chunk of its document's current version that no access entry blocks; denied_count is the number of scanned rows that one blocks |
| RetrievalScores.AnswerLists | backend/app/retrieval/sqlalchemy_store.py:63-145 | An answer lists, in their order, exactly those of the first top_k reranked candidates that are scanned rows which no access entry blocks, each with its score and source |
| Retrieval.HybridAnswersLikeKeyword | backend/app/retrieval/sqlalchemy_store.py:82-127 | With the default reranker two answers from the same scan, one in keyword mode and one in hybrid mode without vector hits, list the same chunks in the same order and deny as many |
| ArtifactCleanup.CollectCandidates | backend/app/tool_registry/image_artifact_cleanup.py:409-431 | The collecting loop finds the expired descriptors with string reference and digest, admission by admission, first the SBOM then the scan report |
| ArtifactCleanup.CleanupService.RunCleanup | backend/app/tool_registry/image_artifact_cleanup.py:127-265 | A dry run changes only the run log; a real run takes the first candidates up to its limit and writes exactly the outcome of each: the deleted count is the number of deletes the store confirmed, succeeded means none failed, failed means some failed and none was deleted; with a store that never fails every candidate with a matching object is deleted |
| ArtifactCleanup.CleanupService.ProcessCandidates | backend/app/tool_registry/image_artifact_cleanup.py:177-229 | The deletion loop re-reads and re-writes the admission of each candidate, so two keys of one admission both keep their outcome; a candidate counts as deleted exactly when its object was found as described and the store confirmed the delete; neither skip is ever taken |
| ArtifactCleanup.CleanupService.TryDelete | backend/app/tool_registry/image_artifact_cleanup.py:187-203 | One candidate: the store is asked for the object and, only when kind, digest and project fit, to delete it; deleted exactly when the delete is confirmed, otherwise failed with the reason |
| ArtifactCleanup.ConfirmedOfCalls | backend/app/tool_registry/image_artifact_cleanup.py:187-222 | Of all calls to the store the confirmed deletes are as many as the outcomes recorded as deleted |
| ArtifactCleanup.DeletesAll | backend/app/tool_registry/image_artifact_cleanup.py:177-229 | With a store that never fails every candidate is deleted exactly when each object is there and as described |
| ArtifactCleanup.Located | backend/app/tool_registry/image_artifact_cleanup.py:179-186 | The lookups of the loop succeed for every candidate, however many were processed before |
| ArtifactCleanup.MarkNext | backend/app/tool_registry/image_artifact_cleanup.py:205-229 | Writing the merged evidence of the located admission marks exactly one more candidate |
| CleanupTheorems.NoLostUpdate | backend/app/tool_registry/image_artifact_cleanup.py:177-229 | Each descriptor ends up with exactly the outcome of its own candidate, and descriptors that were no candidate are untouched |
| CleanupTheorems.CandidatesDistinct | backend/app/tool_registry/image_artifact_cleanup.py:409-431 | With unique admission ids no descriptor is a candidate twice |
| CleanupTheorems.InTableOrder | backend/app/tool_registry/image_artifact_cleanup.py:409-431 | Candidates come in table order, of one admission the SBOM first, so a limited run takes the first ones |
| CleanupTheorems.OnlyExpiredObjectsGo | backend/app/tool_registry/image_artifact_cleanup.py:147-203 | Every object gone after a run was one of the project, with the kind and digest on record of a descriptor that had expired at the run's start |
| CleanupTheorems.DescriptorAfter | backend/app/tool_registry/image_artifact_cleanup.py:205-229 | A run keeps reference, digest and expiry of every descriptor, marks as deleted, at its start, exactly the deleted ones, and records the error of the failed ones |
| CleanupTheorems.CandidatesAfter | backend/app/tool_registry/image_artifact_cleanup.py:409-464 | At the same clock the candidates afterwards are the candidates before without the deleted ones, in the same order |
| CleanupTheorems.RunRaisesDeleted | backend/app/tool_registry/image_artifact_cleanup.py:484-491 | A real run raises the number marked deleted by exactly its deleted count |
| CleanupTheorems.ReportShows | backend/app/tool_registry/image_artifact_cleanup.py:229-264 | The report of a run repeats each candidate with its outcome |
| CleanupTheorems.RetainedOrCandidate | backend/app/tool_registry/image_artifact_cleanup.py:434-481 | Descriptors not deleted, with reference and digest, split exactly into retained ones and candidates at every instant |
| CleanupTheorems.EveryDescriptorOnce | backend/app/tool_registry/image_artifact_cleanup.py:434-491 | At every instant each descriptor is counted exactly once: deleted, retained, candidate or unusable |
| CleanupTheorems.TimeMovesOneWay | backend/app/tool_registry/image_artifact_cleanup.py:434-481 | As time passes a descriptor only moves from retained to candidate |
| CleanupTheorems.CountsOverTime | backend/app/tool_registry/image_artifact_cleanup.py:467-481 | On a fixed table the retained count never grows and the candidates never become fewer |
| MatchSignature.SortCanonical | backend/app/policy_center/sqlalchemy_store.py:827-836 | Sorting forgets order: equal collections of references sort alike |
| MatchSignature.SignatureInjective | backend/app/policy_center/sqlalchemy_store.py:827-836 | For references that are non-empty and free of comma and bar, equal signatures mean equal sorted lists, position by position |
| MatchSignature.SignatureIsMultisets | backend/app/policy_center/sqlalchemy_store.py:827-836 | For such lists, repeats allowed, signatures are equal exactly when list by list the same references occur equally often |
| MatchSignature.MeaningIsMembers | backend/app/policy_center/runtime.py:182-206 | For any lists, two rules admit the same values exactly when list by list the same references occur |
| MatchSignature.SignatureIsMeaning | backend/app/policy_center/sqlalchemy_store.py:827-836 | For such lists without repeats, signatures are equal exactly when the same values are admitted |
| PolicyRules.FirstMatch | backend/app/policy_center/runtime.py:116-123 | The first rule that matches, and no earlier rule does |
| PolicyRules.EvaluateMeaning | backend/app/policy_center/runtime.py:116-179 | Denied exactly when the deciding rule denies; allowed exactly when the risk is not high and the deciding rule allows, or no rule matches and no default approval is required; the verdict names the deciding rule, or which default applied, and the policy version |
| PolicyRules.FloorHolds | backend/app/policy_center/runtime.py:125-165 | No policy, valid or not, published or missing, turns high or critical risk into allowed |
| PolicyRules.ValidateRules | backend/app/policy_center/sqlalchemy_store.py:426-495 | The one-pass validator with its last-writer map reports each kind of issue exactly when the rules have it, and none exactly when ids are distinct, no allow rule lists high or critical, and no two rules sharing kind, a risk level and signature differ in action |
| PolicyRules.NoCoercion | backend/app/policy_center/runtime.py:164-165 | In a valid policy the coercion of allow to approval is never taken: the deciding rule's action is the outcome |
| PolicyRules.SwapKeepsDecisions | backend/app/policy_center/runtime.py:116-123 | In a valid policy swapping two adjacent rules of equal kind and signature changes no decision |
| PolicyRules.ScopeIsReferences | backend/app/policy_center/runtime.py:182-206 | For any two rules, the same requests are in scope exactly when list by list the same references occur |
| PolicyRules.SignatureIsMultiplicities | backend/app/policy_center/sqlalchemy_store.py:827-836 | For rules with non-empty, separator-free references, signatures are equal exactly when list by list the same references occur equally often |
| PolicyRules.ConflictTestRightIff | backend/app/policy_center/sqlalchemy_store.py:460-474 | Exactly when the conflict test agrees with a contradiction (different action, shared kind and risk level, same requests). Any two rules: unless they differ in action on a shared kind and risk level with signatures that agree where their references do not, or the reverse. Separator-free rules: exactly when rivals with the same references have them equally often |
| PolicyRules.NoFalseConflict | backend/app/policy_center/sqlalchemy_store.py:460-474 | Separator-free references, repeated or not, rule out false conflicts |
| PolicyRules.NoMissedConflict | backend/app/policy_center/sqlalchemy_store.py:460-474 | Unrepeated references, whatever characters they contain, rule out missed conflicts |
| PolicyRules.SignatureIsScope | backend/app/policy_center/runtime.py:182-206 | For rules with non-empty, separator-free, unrepeated references, equal signatures are exactly equal scopes over all requests |
| PolicyRules.ClashIsContradiction | backend/app/policy_center/sqlalchemy_store.py:460-474 | For a policy of such rules the validator finds no conflict exactly when no two rules contradict each other |
| PolicyRules.CommaFalseConflict | backend/app/policy_center/sqlalchemy_store.py:827-836 | For every u <= v the rule naming the one reference "u,v" and the rule naming u and v are reported as a conflict and match different requests |
| PolicyRules.EmptyFalseConflict | backend/app/policy_center/sqlalchemy_store.py:827-836 | The same for a rule naming the empty reference and a rule naming none |
| PolicyRules.BarFalseConflict | backend/app/policy_center/sqlalchemy_store.py:827-836 | The same for every three references joined by a bar before or after the border between two lists |
| PolicyRules.RepeatMissedConflict | backend/app/policy_center/sqlalchemy_store.py:460-474 | For every reference, listing it twice hides a contradiction from the validator, which accepts the policy |
| PolicyVersions.MaxVersion | backend/app/policy_center/sqlalchemy_store.py:361-368 | Bounds every version number of the key and is attained unless it is 0 |
| PolicyVersions.Latest | backend/app/policy_center/sqlalchemy_store.py:333-351 | The published row with the highest version of a key, or none when none is published |
| PolicyVersions.PolicyCenterStore.NextVersion | backend/app/policy_center/sqlalchemy_store.py:361-368 | One more than the highest version of the key |
| PolicyVersions.PolicyCenterStore.CreateDraft | backend/app/policy_center/sqlalchemy_store.py:155-183 | Appends a draft with the next version of its key |
| PolicyVersions.PolicyCenterStore.ValidateDraft | backend/app/policy_center/sqlalchemy_store.py:185-203 | Records on the draft whether its rules are valid; finds only drafts of the project |
| PolicyVersions.PolicyCenterStore.SupersedeCurrentPolicy | backend/app/policy_center/sqlalchemy_store.py:409-424 | Supersedes the published rows of the key and no other row |
| PolicyVersions.PolicyCenterStore.PublishDraft | backend/app/policy_center/sqlalchemy_store.py:205-246 | Publishes a valid draft in place of the current policy, or records the failed check, or finds no draft |
| PolicyVersions.PolicyCenterStore.Rollback | backend/app/policy_center/sqlalchemy_store.py:248-301 | Publishes a new version with the rules of a published or superseded one |
| PolicyVersions.PolicyCenterStore.LoadPublished | backend/app/policy_center/sqlalchemy_store.py:333-351 | Loads the live policy of the key |
| PolicyVersions.MaxIsCount | backend/app/policy_center/sqlalchemy_store.py:361-368 | In every reachable table the highest version of a key is the number of its rows |
| PolicyVersions.StepKeepsInv | backend/app/policy_center/sqlalchemy_store.py:155-301 | Every draft, validation, publish and rollback keeps: versions count up per key, at most one is published, a key once published stays published, and everything ever published validates |
| PolicyVersions.RunKeepsInv | backend/app/policy_center/sqlalchemy_store.py:155-301 | The same for every run; no run changes key, version or rules of a stored row, or brings a superseded row back |
| PolicyVersions.VersionsAreOneToN | backend/app/policy_center/sqlalchemy_store.py:155-183 | After every run the versions of a key are exactly 1..n, in order, so the unique constraint never trips |
| PolicyVersions.RollbackSucceeds | backend/app/policy_center/sqlalchemy_store.py:248-301 | After every run a rollback succeeds exactly when the version was ever published; its validation failure is unreachable |
| PolicyVersions.RollbackRestores | backend/app/policy_center/sqlalchemy_store.py:248-301 | Rolling back to the version that was live at some moment gives every request the decision and rule it got then, whatever happened in between |
| PolicyVersions.StepIsolated | backend/app/policy_center/sqlalchemy_store.py:155-301 | Drafting and validating change no live policy; publishing and rolling back change only that of their own key |
| PolicyVersions.PublishGoesLive | backend/app/policy_center/sqlalchemy_store.py:205-246 | Publishing succeeds exactly for valid drafts of the project and makes exactly the rules of the draft live; a failed check is recorded on the draft and nothing else is written |
| PolicyVersions.CheckWrites | backend/app/policy_center/sqlalchemy_store.py:185-203 | Validating finds exactly the drafts of the project and writes only the result, on the draft |
| PolicyVersions.DraftWrites | backend/app/policy_center/sqlalchemy_store.py:155-183 | In every reachable table a new draft has the key, rules and source it was given and a version one higher than the number of rows of its key |
| PolicyVersions.RollbackWrites | backend/app/policy_center/sqlalchemy_store.py:248-301 | A rollback that succeeds adds one published row with the rules of the once published row of that version, named as its source, and supersedes the published rows of the key without rewriting any |
| PolicyRaces.PolicyTransactions.OpenPublish | backend/app/policy_center/sqlalchemy_store.py:205-233 | A publisher up to its commit: the checks, and the rows it will supersede |
| PolicyRaces.PolicyTransactions.OpenRollback | backend/app/policy_center/sqlalchemy_store.py:248-289 | A rollback up to its commit: the checks, the rows it will supersede and the version it chose |
| PolicyRaces.PolicyTransactions.Finish | backend/app/policy_center/sqlalchemy_store.py:237-244 | A commit: all writes, or none when the unique constraint refuses a new row |
| PolicyRaces.StepKeepsInv | backend/app/policy_center/sqlalchemy_store.py:205-301 | Every step of every interleaving keeps: versions count up per key, everything released validates, and what is published is what the releases so far leave published |
| PolicyRaces.ConflictIff | backend/app/policy_center/sqlalchemy_store.py:290-296 | The commit of a publisher is never refused; that of a rollback exactly when a row of its key was added since it chose its version, and then nothing is written |
| PolicyRaces.CommitLeaves | backend/app/policy_center/sqlalchemy_store.py:205-246 | After a commit its row is published beside exactly the other rows published by then that it had not seen published; without another commit of the key since its read it is alone, and other keys are untouched |
| PolicyRaces.TwoPublishedIff | backend/app/policy_center/models.py:11-33 | In every interleaving in which no row is released twice, two versions of a key are published exactly when the latest publisher of the key committed after another one that committed since its read |
| PolicyRaces.ReleasedAgainIff | backend/app/policy_center/sqlalchemy_store.py:205-246 | A row is released a second time exactly when a publisher commits a draft that is no draft any more |
| PolicyRaces.ServedIff | backend/app/policy_center/sqlalchemy_store.py:333-351 | The version just published is the one served exactly when no version left published beside it is higher |
| PolicyRaces.SerialPublish | backend/app/policy_center/sqlalchemy_store.py:205-246 | A publisher that commits right after its read does exactly what publishing in one step does |
| PolicyRaces.SerialRollback | backend/app/policy_center/sqlalchemy_store.py:248-301 | The same for a rollback |
| PolicyRaces.RaceLeavesBoth | backend/app/policy_center/models.py:11-33 | For any two valid drafts of a key, if both publishers read before either commits, both drafts stay published |
| ApprovalGateways.Gateways.constructor | backend/app/tool_gateway/service.py:39-52 | Services without approvals or invocations, over a policy store, start in the start state and satisfy the invariant |
| ApprovalGateways.Gateways.Perform | backend/app/tool_gateway/service.py:54-604 | The services carry out every step of the state machine: result and new state are those of the step, and the invariant is kept |
| ApprovalGateways.PromisesKept | backend/app/tool_gateway/service.py:54-604 | Between any two calls of the services every effect was carried by an approval as it should be, no approval task was used twice, and the invocations show where their tasks stand |
| ApprovalGateways.Gateways.RecordInvocation | backend/app/tool_gateway/sqlalchemy_store.py:25-32 | Adds the invocation unless its call id is taken in the project |
| ApprovalGateways.Gateways.UpdateInvocationStatus | backend/app/tool_gateway/sqlalchemy_store.py:111-150 | Writes status and decision of an invocation of the project, or reports that it is missing |
| ApprovalGateways.Gateways.Invoke | backend/app/tool_gateway/service.py:54-304 | Invocation with all early exits: denials and failures are recorded, approval parks the call, allowed calls go out once and are recorded |
| ApprovalGateways.Gateways.EvaluateTool | backend/app/tool_gateway/service.py:722-761 | Both directions of allowed and denied, by the first live rule whose fields concern the tool, its risk and the groups of the request, and by whether the tool is marked as requiring approval when there is none; with and without an evaluator |
| ApprovalGateways.Gateways.CallTool | backend/app/tool_gateway/service.py:226-304 | The allowed call goes out once and is recorded with its outcome |
| ApprovalGateways.Gateways.RequestApproval | backend/app/tool_gateway/service.py:764-797 | Parks a call: waiting invocation and pending task with the whole request and a deadline 24 hours ahead |
| ApprovalGateways.Gateways.ResumeApproval | backend/app/tool_gateway/service.py:306-604 | Resume with all early exits; only the call itself uses the approval up, and expiry marks the invocation expired |
| ApprovalGateways.Gateways.CallApproved | backend/app/tool_gateway/service.py:524-604 | The approved call goes out with the stored request, and its invocation and approval are written after it |
| ApprovalGateways.Gateways.DecideToolApproval | backend/app/api/routes/tool_gateway.py:113-171 | Decides a pending task only; rejection and revocation also close the invocation |
| ApprovalGateways.Gateways.DecideRuntimeApproval | backend/app/api/routes/runtime_approvals.py:68-120 | Decides a pending runtime task only |
| ApprovalGateways.Gateways.MarkApprovalTaskResumed | backend/app/runtime_approvals/sqlalchemy_store.py:83-98 | Marks the runtime task of the project resumed and changes nothing else, or reports that the project has none |
| ApprovalGateways.Gateways.ValidateRuntimeApproval | backend/app/execution/gateway.py:612-640 | The checks pass exactly when the store is there and the task is of the project, approved, not expired, of the same kind and target, and its run and node are blank or equal |
| ApprovalGateways.Gateways.RunShellTemplate | backend/app/execution/gateway.py:263-414 | Shell run with all early exits: park, deny, or run once, record, and use the approval up |
| ApprovalGateways.Gateways.ExecuteShell | backend/app/execution/gateway.py:344-414 | Runs the template once, records the outcome, and uses the approval up whatever the outcome |
| ApprovalGateways.Gateways.EvaluateShell | backend/app/execution/gateway.py:585-609 | The same for a shell template in its environment at its risk |
| ApprovalGateways.Gateways.CreatePendingShell | backend/app/execution/gateway.py:442-521 | Parks a shell run with its request and a deadline 30 minutes ahead |
| ApprovalGateways.Gateways.ResumeShellApproval | backend/app/execution/gateway.py:416-440 | Resumes the stored request under its approval; a denial becomes an error |
| ApprovalGateways.Gateways.RunNode | backend/app/model_gateway/runner.py:159-380 | Model call with all early exits; only a successful completion uses the approval up |
| ApprovalGateways.Gateways.EvaluateModel | backend/app/model_gateway/runner.py:532-555 | Approval is asked for, or the call denied, exactly when an evaluator is wired and the first live rule that concerns the model policy at medium risk says so |
| ApprovalGateways.Gateways.CreatePendingModel | backend/app/model_gateway/runner.py:186-220 | Parks a model call; without an approval store the waiting invocation is all that remains |
| ApprovalGateways.Gateways.CallModel | backend/app/model_gateway/runner.py:290-380 | Calls the model once and records the outcome; only a success uses the approval up |
| ApprovalInvariant.ToolFloor | backend/app/tool_gateway/service.py:722-761 | With or without an evaluator, an allowed tool call is not high or critical |
| ApprovalInvariant.ShellFloor | backend/app/execution/gateway.py:585-609 | With or without an evaluator, an allowed shell run is not high or critical |
| ApprovalInvariant.StepKeepsInv | backend/app/tool_gateway/service.py:54-604 | Every step of the protocol keeps its invariant and only moves tasks forward; a missing invocation is never looked up |
| ApprovalInvariant.RunKeepsInv | backend/app/tool_gateway/service.py:54-604 | The same for every run: tasks keep request, target and deadline, and a decision once made stays |
| ApprovalTheorems.HighRiskWasApproved | backend/app/tool_gateway/service.py:313-537 | In every run every high or critical effect was carried by an approval task; a carried effect was approved and left less than 24 hours (tool) or 30 minutes (shell, model) after parking; a shell run or model call has the target, run and node of its task unless the task leaves run or node blank; a resumed tool call has exactly the stored tool and arguments |
| ApprovalTheorems.EffectNeedsUsableTask | backend/app/execution/gateway.py:278-297 | One step performs at most one effect, and a high-risk or task-carried one only when the step presents an approval task that is approved and unexpired at that moment |
| ApprovalTheorems.AtMostOncePerTask | backend/app/tool_gateway/service.py:526-589 | In every run an approval task yields at most one tool call, shell run or successful model completion, and it is resumed exactly when it yielded one |
| ApprovalTheorems.ShellResumePassesStored | backend/app/execution/gateway.py:416-440 | Resuming a parked shell run runs the stored template with the stored parameters |
| ApprovalTheorems.ModelRetry | backend/app/model_gateway/runner.py:290-371 | Where a call would succeed, one that fails or returns invalid output is logged as one failed call on the same task, uses nothing up and changes no task; trying again still succeeds, and then the task is used up |
| ApprovalTheorems.ToolResumeCallsIff | backend/app/tool_gateway/service.py:306-604 | Resuming calls the tool exactly when the approval is usable, the tool still authorized, the arguments valid, the live policy not denying and the server reachable; exactly then it becomes resumed |
| ApprovalTheorems.ToolInvokeCallsIff | backend/app/tool_gateway/service.py:54-304 | A fresh invocation calls the tool exactly when it is authorized, valid, allowed and reachable, and then it is not high risk |
| ApprovalTheorems.ShellRunsIff | backend/app/execution/gateway.py:263-414 | A shell start runs the template exactly when it is executable in its environment with valid parameters and either allowed or presented with an approval for this template, run and node and not denied; at high risk only with an approval |
| ApprovalTheorems.ModelCallsIff | backend/app/model_gateway/runner.py:159-380 | A model start calls the model exactly when node, policy, prompt and budget are fine and it is either allowed or presented with an approval for this policy, run and node and not denied |
| ApprovalTheorems.InvocationsFollowTasks | backend/app/api/routes/tool_gateway.py:113-171 | In every run: the invocation of a pending tool task waits, of a rejected one is denied, of a revoked one cancelled, of a used one has the status of the call that used it; a rejected or revoked runtime task leaves its invocation waiting |
| ApprovalTheorems.ResumeRefusalShows | backend/app/tool_gateway/service.py:306-604 | In every reachable state a tool resume that does not reach the tool leaves the invocation expired, denied or failed according to its reason, and changes nothing when there is no approved task |
| ApprovalTheorems.DenyStops | backend/app/tool_gateway/service.py:404-431 | A deny rule stops everything it decides, also calls approved before it was published |
| ApprovalTheorems.GeneratedIdsAreFree | backend/app/tool_gateway/service.py:697 | A generated call id never trips the unique constraint |
| GatewayDecisions.OneBinding | backend/app/policy_center/sqlalchemy_store.py:333-351 | In every run exactly one list of rules binds a project: that of the published row of its default policy with no higher published version, or none |
| GatewayDecisions.ToolCalledWhen | backend/app/tool_gateway/service.py:54-304 | In every run, in terms of the rows of the policy table and the fields of rules, request and tool: a fresh invocation calls the tool, with its tool and arguments, exactly when it is authorized, its arguments fit, the server can be reached, the risk is not high and either the first rule for this tool, its risk and its groups allows it, or there is no such rule and the tool is not marked as requiring approval |
| GatewayDecisions.MarkedToolNeedsAllowRule | backend/app/tool_gateway/service.py:722-761 | In every run a tool marked as requiring approval is called by a fresh invocation only when an evaluator is wired and the first rule of the published policy that concerns the call allows it |
| GatewayDecisions.ToolParkedWhen | backend/app/tool_gateway/service.py:107-171 | In every run the exact condition under which a fresh invocation is parked, and the whole task it leaves, with a deadline 24 hours ahead |
| GatewayDecisions.ToolRecordedWhen | backend/app/tool_gateway/service.py:54-304 | In every run the row that a fresh invocation leaves: its call id, and denied, waiting, failed or success by what came of it; none when the call id is in use |
| GatewayDecisions.ToolResumedWhen | backend/app/tool_gateway/service.py:306-604 | In every run, in the same terms, exactly when a resume calls the tool, with the stored tool and arguments: a rule published since that denies the stored request stops it, no other rule does |
| GatewayDecisions.ToolDecisionWrites | backend/app/api/routes/tool_gateway.py:113-171 | In every run a decision on a pending task of the project is written on the task, a rejection also denies and a revocation cancels its invocation, and nothing else changes; any other decision is refused |
| GatewayDecisions.ShellRunWhen | backend/app/execution/gateway.py:263-414 | In every run, in the same terms, exactly when a shell start runs its template and with what: the first rule for this template in its environment at its risk decides |
| GatewayDecisions.ShellParkedWhen | backend/app/execution/gateway.py:442-521 | In every run the exact condition under which a shell start is parked, and the whole task and invocation it leaves, with a deadline 30 minutes ahead |
| GatewayDecisions.ShellRecordedWhen | backend/app/execution/gateway.py:298-414 | In every run the row and answer that a runnable shell start leaves when it is allowed or denied |
| GatewayDecisions.ShellResumedWhen | backend/app/execution/gateway.py:416-440 | In every run exactly when a resume runs the stored template, with the stored parameters, and exactly when it answers that the policy denies it |
| GatewayDecisions.ModelCalledWhen | backend/app/model_gateway/runner.py:159-380 | In every run, in the same terms, exactly when a model start calls the model and with what: the first rule for this model policy at medium risk decides |
| GatewayDecisions.ModelParkedWhen | backend/app/model_gateway/runner.py:186-220 | In every run the exact condition under which a model start is parked, and the whole task and invocation it leaves |
| GatewayDecisions.ModelRecordedWhen | backend/app/model_gateway/runner.py:159-380 | In every run the row that a model start without an approval leaves: denied, waiting, over budget, failed, invalid or success; none when only the prompt is missing |
| TraceSpans.InvocationStore.RecordInvocation | backend/app/tool_gateway/sqlalchemy_store.py:25-32 | Adds the row and its span together, or neither when a unique constraint refuses |
| TraceSpans.InvocationStore.UpsertSpan | backend/app/tool_gateway/sqlalchemy_store.py:179-192 | Inserts or overwrites field by field; either way the key then holds the projection |
| TraceSpans.InvocationStore.UpdateInvocationStatus | backend/app/tool_gateway/sqlalchemy_store.py:111-150 | Assigns the tool invocation and its span, or finds nothing |
| TraceSpans.InvocationStore.UpdateShellByRef | backend/app/execution/sqlalchemy_store.py:30-70 | Assigns the shell invocation and its span, or finds nothing |
| TraceSpans.InvocationStore.UpdateModelByRef | backend/app/model_gateway/sqlalchemy_store.py:346-365 | Assigns the model invocation and its span, or records it |
| TraceSpans.KeysInjective | backend/app/observability/projection.py:13-180 | Span ids collide neither across tool, shell and model invocations nor within one kind |
| TraceSpans.AssignKeeps | backend/app/execution/sqlalchemy_store.py:98-111 | An update keeps every span exact and never inserts one |
| TraceSpans.SpansAreExact | backend/app/tool_gateway/sqlalchemy_store.py:25-32 | After every sequence of records, updates and foreign inserts each invocation has one span, equal to its projection, and no other span is left over |
| TraceSpans.RecordRefusedIff | backend/app/tool_gateway/sqlalchemy_store.py:25-32 | A record is refused exactly when its span key is in use |
| TraceSpans.StatusesShown | backend/app/observability/projection.py:274-293 | In the span table after every sequence of records and updates a waiting tool or model invocation is shown as pending and a waiting shell run as failed, and success is shown exactly for the invocations that succeeded |
| SpanColumns.ColumnsShown | backend/app/observability/projection.py:13-180 | In the span table after every sequence of records, updates and foreign inserts the span of an invocation shows its columns: key, actor, trace, run, node, end and duration, status, source, name, and every non-empty attribute under its key and no empty one |
| SpanColumns.ToolUpdateWrites | backend/app/tool_gateway/sqlalchemy_store.py:111-150 | A tool update writes status, decision, output, error, duration and author of one row, nothing else, and its span shows them |
| SpanColumns.ShellUpdateWrites | backend/app/execution/sqlalchemy_store.py:30-70 | A shell update writes status, exit code, output, error, duration, command hash and author of the run with this reference, nothing else, and its span shows them |
| SpanColumns.ModelUpdateWrites | backend/app/model_gateway/sqlalchemy_store.py:346-365 | A model update keeps project, reference and creation of the row and takes everything else from the new one, or records the new one, and the span shows the result |
| SpanColumns.UpdateFindsIff | backend/app/execution/sqlalchemy_store.py:30-70 | A tool or shell update answers that it found its row exactly when the project has it, and otherwise changes nothing |
| SpanColumns.ModelStoresIff | backend/app/model_gateway/sqlalchemy_store.py:346-365 | A model update stores the row exactly when the project has one with its reference or the span key is free, and otherwise changes nothing |
| ProjectAccess.IndexPermissions | backend/app/iam/sqlalchemy_project_access.py:70-80 | The dictionary of permissions by role lists exactly the join of role permissions and permissions |
| ProjectAccess.IndexBindings | backend/app/iam/sqlalchemy_project_access.py:82-85 | The dictionary of roles by member lists exactly the bindings |
| ProjectAccess.BuildMembership | backend/app/iam/sqlalchemy_project_access.py:87-111 | A membership has exactly the role codes and permissions of the roles the member holds in its own project |
| ProjectAccess.Load | backend/app/iam/sqlalchemy_project_access.py:55-117 | The loaded snapshot grants a permission exactly when a chain of binding, same-project role and role permission does |
| ProjectAccess.GetProjectForAccount | backend/app/iam/sqlalchemy_project_access.py:152-185 | The first active membership of the account decides: nothing, a permission error, or the project |
| ProjectAccess.ListVisibleProjects | backend/app/iam/sqlalchemy_project_access.py:119-150 | Lists exactly the visible projects, sorted by slug, each once when memberships are unique |
| ProjectAccess.LoadedUnique | backend/app/iam/sqlalchemy_project_access.py:55-117 | A snapshot loaded from a database that keeps one member row per account and project has unique memberships, which is what listing each project once needs |
| ProjectAccess.AccessAgrees | backend/app/iam/access.py:35-54 | With unique memberships the snapshot grants exactly what the simple service grants, and knows a project exactly when the service shows it |
| ProjectAccess.VisibilityAgrees | backend/app/iam/access.py:56-70 | The snapshot lists exactly the projects that the simple service lists |
| ProjectAccess.ForeignRoleGrantsNothing | backend/app/iam/sqlalchemy_project_access.py:90-94 | A binding to a role of another project grants nothing |
| AccessAnswers.AnswerShows | backend/app/iam/sqlalchemy_project_access.py:152-202 | Told from the rows of the tables: a granted project is an active one, shown with its id, slug and name; a super admin gets the one role and every permission code, any other account exactly the role and permission codes that binding, role, role permission and permission rows give its active membership, the required one among them |
| AccessAnswers.ListShows | backend/app/iam/sqlalchemy_project_access.py:119-150 | The same for every project that is listed |
| PromptReleases.NormalizePartIdempotent | backend/app/model_gateway/sqlalchemy_store.py:509-510 | A stored label is its own normal form |
| PromptReleases.ModelGatewayStore.ValidateEvalGate | backend/app/model_gateway/sqlalchemy_store.py:470-506 | Opens exactly for unprotected labels and for completed runs of the project that meet every threshold |
| PromptReleases.ModelGatewayStore.BeginRelease | backend/app/model_gateway/sqlalchemy_store.py:201-255 | The checks and writes of a publisher up to its commit |
| PromptReleases.ModelGatewayStore.CommitRelease | backend/app/model_gateway/sqlalchemy_store.py:256-267 | Commit checked by the partial unique index: all writes or none |
| PromptReleases.ModelGatewayStore.GetVersionByLabel | backend/app/model_gateway/sqlalchemy_store.py:298-331 | The version behind the newest active release of the label |
| PromptReleases.ConflictIff | backend/app/model_gateway/models.py:103-112 | A commit is refused exactly when another release of the same key was committed since the publisher read |
| PromptReleases.StepKeepsInv | backend/app/model_gateway/sqlalchemy_store.py:201-267 | Every step of every interleaving keeps: active is exactly the last committed release of its key |
| PromptReleases.OneActiveRelease | backend/app/model_gateway/models.py:103-112 | In every committed state at most one release of a key is active, the last one committed |
| PromptReleases.LoserIffOvertaken | backend/app/model_gateway/sqlalchemy_store.py:256-267 | In every interleaving the loser is exactly the overtaken publisher, and it leaves no trace |
| PromptReleases.LookupReturnsLast | backend/app/model_gateway/sqlalchemy_store.py:298-331 | Looking up any label and environment of the same normal form returns the version of the last committed release while it and its template are active, and nothing otherwise |
| PromptReleases.ProtectedReleasesPassed | backend/app/model_gateway/sqlalchemy_store.py:470-506 | Every protected release was published on an eval run of its project that passed every threshold when the gate read it |
| ReleaseTheorems.NormalForm | backend/app/model_gateway/sqlalchemy_store.py:509-510 | Labels that differ only in the case of letters and in surrounding whitespace have one normal form, and a trimmed label without capitals is its own |
| ReleaseTheorems.ProtectedHoweverSpelled | backend/app/model_gateway/sqlalchemy_store.py:213-223 | However production, staging or latest is spelled, the label is protected |
| ReleaseTheorems.BeginsIff | backend/app/model_gateway/sqlalchemy_store.py:201-233 | A publisher gets to its writes exactly when label and environment are not blank, the version is an active one of the active template, and for a protected label the named eval run of the project is completed, has a case, leaks nothing and reaches 0.8, 0.5 and 0.8 |
| ReleaseTheorems.PublishedIsServed | backend/app/model_gateway/sqlalchemy_store.py:201-331 | A publisher that commits right after its checks succeeds, and the label, however it is spelled, then names the version of the request |
| ReleaseTheorems.OtherLabelsKeep | backend/app/model_gateway/sqlalchemy_store.py:201-331 | In every interleaving a commit changes what is served under its own label, environment and template only |

## Left out

- Content hashes: the SHA-256 of the normalized text is replaced by the normalized text itself, so hash collisions are not modelled.
- Identifiers: UUIDs are naturals handed out in increasing order; references built from them are never truncated at 160 characters.
- Clocks are parameters or a field that only ticks forward; one gateway call reads the clock once.
- Interleaving: each gateway call, import, delete and policy change is one atomic step, since the code holds no lock across requests; prompt publishing, policy publishing and policy rollback are also split into begin and commit, where a begin reads at one instant and any order of commits is allowed.
- SQL, transactions and row locks: a query is a scan of the model's tables, a unique constraint a check at commit; string length caps are ignored.
- Scores are exact reals, not floats; the reranker is an arbitrary function of query and candidates.
- Answers from outside (tool registry, MCP server, shell sandbox, model client, JSON Schema validation, prompt rendering, token budget, object store, vector index) are parameters or unconstrained outcomes.
- A tool client that raises anything but its own call error, and a model client that raises anything but a gateway error, are not modelled.
- Audit events, policy gate events, the retrieval query log, secret leases beyond granted or refused, and response summaries are not modelled.
- Redaction of summaries and span attributes, and flattening of usage dictionaries into span attributes.
- NormalizePartIdempotent: lower-casing of release labels, as of search terms, covers ASCII letters only.
- Role and permission lists of an access summary are sets; their alphabetical order is not modelled.
- Validation of policies: the warning for an empty policy and the impact summary, which only count surfaces.
- The workflow runtime, queue leases, checkpointing, dashboards, egress policies, HTTP execution, run lessons, cleanup scheduling and governance reports, migrations and the web UI.
