/** Cleanup of expired image artifacts: candidates, the deletion run, and its accounting. */
module ArtifactCleanup {
  import opened Common

  datatype CleanupStatus = Unmarked | Pending | Deleted | DeleteFailed | OtherStatus

  /** An evidence descriptor. `ref` and `sha` are absent when the stored value is not a string, `expires` when it is
      no date. */
  datatype Descriptor = Descriptor(
    ref: Option<string>, sha: Option<string>, expires: Option<int>,
    status: CleanupStatus, error: string, deletedAt: Option<int>)

  /** A value of the evidence dictionary: a nested dictionary or anything else. */
  datatype Evidence = Dict(d: Descriptor) | Opaque(text: string)

  datatype Admission = Admission(id: Id, evidence: map<string, Evidence>)

  datatype Kind = Sbom | ScanReport

  datatype Candidate = Candidate(
    admission: Id, key: string, kind: Kind, ref: string, sha: string, expires: int, status: CleanupStatus,
    error: string)

  /** The two evidence keys that a cleanup looks at, in this order. */
  const KEYS: seq<(string, Kind)> := [("sbom", Sbom), ("vulnerabilities", ScanReport)]

  datatype RunStatus = Succeeded | Partial | Failed

  datatype Run = Run(
    status: RunStatus, dryRun: bool, candidateCount: nat, deletedCount: nat, failedCount: nat, retainedCount: nat,
    candidates: seq<Candidate>)

  // --- Candidates ---------------------------------------------------------------

  function CandidateFrom(a: Admission, key: string, kind: Kind, d: Descriptor, now: int): seq<Candidate> {
    if d.ref.None? || d.sha.None? then []
    else if d.expires.None? || d.expires.value > now then []
    else [Candidate(a.id, key, kind, d.ref.value, d.sha.value, d.expires.value,
                    if d.status in {Pending, Deleted, DeleteFailed} then d.status else Pending, d.error)]
  }

  function CandidateAt(a: Admission, key: string, kind: Kind, now: int): seq<Candidate> {
    if key in a.evidence && a.evidence[key].Dict? && a.evidence[key].d.status != Deleted
    then CandidateFrom(a, key, kind, a.evidence[key].d, now) else []
  }

  function CandidatesOf(a: Admission, now: int): seq<Candidate> {
    CandidateAt(a, "sbom", Sbom, now) + CandidateAt(a, "vulnerabilities", ScanReport, now)
  }

  function Candidates(admissions: seq<Admission>, now: int): seq<Candidate> {
    if admissions == [] then []
    else Candidates(admissions[..|admissions| - 1], now) + CandidatesOf(admissions[|admissions| - 1], now)
  }

  method CollectCandidates(admissions: seq<Admission>, now: int) returns (candidates: seq<Candidate>)
    ensures candidates == Candidates(admissions, now)
  {
    candidates := [];
    for i := 0 to |admissions|
      invariant candidates == Candidates(admissions[..i], now)
    {
      var a := admissions[i];
      for j := 0 to 2
        invariant j == 0 ==> candidates == Candidates(admissions[..i], now)
        invariant j == 1 ==> candidates == Candidates(admissions[..i], now) + CandidateAt(a, "sbom", Sbom, now)
        invariant j == 2 ==> candidates == Candidates(admissions[..i], now) + CandidatesOf(a, now)
      {
        var key, kind := KEYS[j].0, KEYS[j].1;
        if key !in a.evidence || !a.evidence[key].Dict? {
          continue;
        }
        var d := a.evidence[key].d;
        if d.status == Deleted {
          continue;
        }
        candidates := candidates + CandidateFrom(a, key, kind, d, now);
      }
      assert admissions[..i + 1][..i] == admissions[..i];
    }
    assert admissions[..|admissions|] == admissions;
  }

  // --- Counts -------------------------------------------------------------------

  predicate IsRetained(d: Descriptor, now: int) {
    d.status != Deleted && d.ref.Some? && (d.expires.None? || d.expires.value > now)
  }

  function One(b: bool): nat { if b then 1 else 0 }

  predicate RetainedAt(a: Admission, key: string, now: int) {
    key in a.evidence && a.evidence[key].Dict? && IsRetained(a.evidence[key].d, now)
  }

  function RetainedCount(admissions: seq<Admission>, now: int): nat {
    if admissions == [] then 0
    else
      var a := admissions[|admissions| - 1];
      RetainedCount(admissions[..|admissions| - 1], now)
      + One(RetainedAt(a, "sbom", now)) + One(RetainedAt(a, "vulnerabilities", now))
  }

  predicate StatusAt(a: Admission, key: string, status: CleanupStatus) {
    key in a.evidence && a.evidence[key].Dict? && a.evidence[key].d.status == status
  }

  function StatusCount(admissions: seq<Admission>, status: CleanupStatus): nat {
    if admissions == [] then 0
    else
      var a := admissions[|admissions| - 1];
      StatusCount(admissions[..|admissions| - 1], status)
      + One(StatusAt(a, "sbom", status)) + One(StatusAt(a, "vulnerabilities", status))
  }

  method CountRetained(admissions: seq<Admission>, now: int) returns (count: nat)
    ensures count == RetainedCount(admissions, now)
  {
    count := 0;
    for i := 0 to |admissions|
      invariant count == RetainedCount(admissions[..i], now)
    {
      var a := admissions[i];
      assert admissions[..i + 1][..i] == admissions[..i];
      for j := 0 to 2
        invariant j == 0 ==> count == RetainedCount(admissions[..i], now)
        invariant j == 1 ==> count == RetainedCount(admissions[..i], now) + One(RetainedAt(a, "sbom", now))
        invariant j == 2 ==> count == RetainedCount(admissions[..i + 1], now)
      {
        var key := KEYS[j].0;
        if key !in a.evidence || !a.evidence[key].Dict? || a.evidence[key].d.status == Deleted
           || a.evidence[key].d.ref.None? {
          continue;
        }
        var expires := a.evidence[key].d.expires;
        if expires.None? || expires.value > now {
          count := count + 1;
        }
      }
    }
    assert admissions[..|admissions|] == admissions;
  }

  // --- The run ------------------------------------------------------------------

  /** What happened to one candidate: its object was deleted, or head, validation or delete raised. */
  datatype Outcome = DeletedNow | FailedWith(error: string)

  function Mark(d: Descriptor, outcome: Outcome, startedAt: int): Descriptor {
    match outcome
    case DeletedNow => d.(status := Deleted, deletedAt := Some(startedAt), error := "")
    case FailedWith(error) => d.(status := DeleteFailed, error := error)
  }

  function Reported(c: Candidate, outcome: Outcome): Candidate {
    match outcome
    case DeletedNow => c.(status := Deleted, error := "")
    case FailedWith(error) => c.(status := DeleteFailed, error := error)
  }

  /** The evidence of admission `id` after the first candidates have had their outcomes. */
  function Marked(evidence: map<string, Evidence>, id: Id, cs: seq<Candidate>, os: seq<Outcome>, startedAt: int)
    : (m: map<string, Evidence>)
    requires |os| == |cs|
    ensures m.Keys == evidence.Keys
  {
    if cs == [] then evidence
    else
      var before := Marked(evidence, id, cs[..|cs| - 1], os[..|cs| - 1], startedAt);
      var c, o := cs[|cs| - 1], os[|cs| - 1];
      if c.admission == id && c.key in before && before[c.key].Dict?
      then before[c.key := Dict(Mark(before[c.key].d, o, startedAt))] else before
  }

  predicate UniqueIds(admissions: seq<Admission>) {
    forall i, j | 0 <= i < j < |admissions| :: admissions[i].id != admissions[j].id
  }

  function DeletedIn(os: seq<Outcome>): (n: nat)
    ensures n <= |os|
  {
    if os == [] then 0 else DeletedIn(os[..|os| - 1]) + One(os[|os| - 1].DeletedNow?)
  }

  function Reports(cs: seq<Candidate>, os: seq<Outcome>): seq<Candidate>
    requires |os| == |cs|
  {
    seq(|cs|, i requires 0 <= i < |cs| => Reported(cs[i], os[i]))
  }

  function StatusOf(candidateCount: nat, deletedCount: nat, failedCount: nat): RunStatus {
    if candidateCount == 0 || failedCount == 0 then Succeeded
    else if deletedCount > 0 then Partial
    else Failed
  }

  function MarkAll(admissions: seq<Admission>, cs: seq<Candidate>, os: seq<Outcome>, startedAt: int): seq<Admission>
    requires |os| == |cs|
  {
    seq(|admissions|, i requires 0 <= i < |admissions| =>
      admissions[i].(evidence := Marked(admissions[i].evidence, admissions[i].id, cs, os, startedAt)))
  }

  function Limited(cs: seq<Candidate>, limit: nat): seq<Candidate> {
    if |cs| <= limit then cs else cs[..limit]
  }

  datatype Metadata = Metadata(kind: Kind, sha: string, project: Id)

  /** A call that the object store answered; a head that raised has no reply, a delete that raised is not confirmed. */
  datatype Call = Head(ref: string, reply: Option<Metadata>) | Delete(ref: string, confirmed: bool)

  /** The object store: which artifacts exist, and the calls it answered. Any call to an unreliable store may fail. */
  class ObjectStore {
    const reliable: bool
    var objects: map<string, Metadata>
    ghost var calls: seq<Call>

    method HeadArtifact(ref: string) returns (metadata: Option<Metadata>)
      modifies `calls
      ensures calls == old(calls) + [Head(ref, metadata)]
      ensures metadata.Some? ==> ref in objects && metadata.value == objects[ref]
      ensures reliable && ref in objects ==> metadata.Some?
    {
      var fails: bool :| reliable ==> !fails;
      metadata := if fails || ref !in objects then None else Some(objects[ref]);
      calls := calls + [Head(ref, metadata)];
    }

    /** A delete that reports failure may or may not have removed the object. */
    method DeleteArtifact(ref: string) returns (ok: bool)
      modifies this
      ensures calls == old(calls) + [Delete(ref, ok)]
      ensures objects == old(objects) - {ref} || (!ok && objects == old(objects))
      ensures reliable ==> ok
    {
      ok :| reliable ==> ok;
      var removed: bool := *;
      if ok || removed {
        objects := objects - {ref};
      }
      calls := calls + [Delete(ref, ok)];
    }
  }

  /** What the store answered for one candidate; `confirmed` counts only when a delete was asked for. */
  datatype Answer = Answer(head: Option<Metadata>, confirmed: bool)

  /** The calls made for a candidate: a delete only after a head that describes exactly its artifact. */
  function CallsFor(c: Candidate, project: Id, answer: Answer): seq<Call> {
    if answer.head == Some(Metadata(c.kind, c.sha, project))
    then [Head(c.ref, answer.head), Delete(c.ref, answer.confirmed)]
    else [Head(c.ref, answer.head)]
  }

  /** The error of a failed candidate names the call that failed, or the check in between. */
  predicate ErrorTells(outcome: Outcome, c: Candidate, project: Id, answer: Answer) {
    outcome.FailedWith? ==>
      outcome.error ==
      if answer.head.None? then "head failed"
      else if answer.head.value != Metadata(c.kind, c.sha, project) then "ValueError"
      else "delete failed"
  }

  predicate Confirms(c: Candidate, project: Id, answer: Answer) {
    answer.head == Some(Metadata(c.kind, c.sha, project)) && answer.confirmed
  }

  function AllCalls(cs: seq<Candidate>, project: Id, answers: seq<Answer>): seq<Call>
    requires |answers| == |cs|
  {
    if cs == [] then []
    else
      AllCalls(cs[..|cs| - 1], project, answers[..|cs| - 1]) + CallsFor(cs[|cs| - 1], project, answers[|cs| - 1])
  }

  /** How many deletes were confirmed. */
  function ConfirmedDeletes(calls: seq<Call>): nat {
    if calls == [] then 0
    else
      var last := calls[|calls| - 1];
      ConfirmedDeletes(calls[..|calls| - 1]) + One(last.Delete? && last.confirmed)
  }

  lemma {:induction false} ConfirmedConcat(a: seq<Call>, b: seq<Call>)
    ensures ConfirmedDeletes(a + b) == ConfirmedDeletes(a) + ConfirmedDeletes(b)
    decreases |b|
  {
    if b == [] {
      assert a + b == a;
    } else {
      assert (a + b)[..|a + b| - 1] == a + b[..|b| - 1];
      ConfirmedConcat(a, b[..|b| - 1]);
    }
  }

  lemma {:induction false} ConfirmedIsDeleted(cs: seq<Candidate>, project: Id, answers: seq<Answer>, os: seq<Outcome>)
    requires |answers| == |cs| == |os|
    requires forall i | 0 <= i < |cs| :: os[i].DeletedNow? <==> Confirms(cs[i], project, answers[i])
    ensures ConfirmedDeletes(AllCalls(cs, project, answers)) == DeletedIn(os)
  {
    if cs != [] {
      var n := |cs| - 1;
      ConfirmedIsDeleted(cs[..n], project, answers[..n], os[..n]);
      var last := CallsFor(cs[n], project, answers[n]);
      ConfirmedConcat(AllCalls(cs[..n], project, answers[..n]), last);
      ConfirmedOfCalls(cs[n], project, answers[n]);
    }
  }

  lemma {:induction false} ConfirmedOfCalls(c: Candidate, project: Id, answer: Answer)
    ensures ConfirmedDeletes(CallsFor(c, project, answer)) == One(Confirms(c, project, answer))
  {
    var calls := CallsFor(c, project, answer);
    assert calls[..1] == [calls[0]] && [calls[0]][..0] == [];
    assert ConfirmedDeletes([calls[0]]) == ConfirmedDeletes([calls[0]][..0]);
  }

  lemma {:induction false} AllDeletedIff(os: seq<Outcome>)
    ensures DeletedIn(os) == |os| <==> forall i | 0 <= i < |os| :: os[i].DeletedNow?
    ensures DeletedIn(os) == 0 <==> forall i | 0 <= i < |os| :: os[i].FailedWith?
  {
    if os != [] {
      var n := |os| - 1;
      AllDeletedIff(os[..n]);
      assert forall i | 0 <= i < n :: os[i] == os[..n][i];
    }
  }

  class CleanupService {
    const project: Id
    const objectStore: ObjectStore
    var admissions: seq<Admission>
    var runs: seq<Run>

    constructor (project: Id, objectStore: ObjectStore, admissions: seq<Admission>)
      ensures this.project == project && this.objectStore == objectStore
      ensures this.admissions == admissions && runs == []
    {
      this.project, this.objectStore := project, objectStore;
      this.admissions, runs := admissions, [];
    }

    /** Writes the evidence of one admission back to the table. */
    method UpdateEvidence(id: Id, evidence: map<string, Evidence>)
      modifies this`admissions
      ensures admissions == Written(old(admissions), id, evidence)
    {
      var updated: seq<Admission> := [];
      for i := 0 to |admissions|
        invariant updated == Written(admissions[..i], id, evidence)
      {
        var a := admissions[i];
        updated := updated + [if a.id == id then a.(evidence := evidence) else a];
      }
      assert admissions[..|admissions|] == admissions;
      admissions := updated;
    }

    /** Head, validate, delete. The object counts as deleted exactly when the store described it as expected and then
        confirmed its deletion. */
    method TryDelete(c: Candidate) returns (outcome: Outcome, ghost answer: Answer)
      modifies objectStore
      ensures objectStore.calls == old(objectStore.calls) + CallsFor(c, project, answer)
      ensures outcome.DeletedNow? <==> Confirms(c, project, answer)
      ensures ErrorTells(outcome, c, project, answer)
      ensures objectStore.reliable ==>
                && (outcome.DeletedNow? <==> Matches(old(objectStore.objects), c, project))
                && (outcome.FailedWith? ==> objectStore.objects == old(objectStore.objects))
      ensures objectStore.objects == old(objectStore.objects) || Matches(old(objectStore.objects), c, project)
      ensures objectStore.objects == old(objectStore.objects) - {c.ref}
              || (outcome.FailedWith? && objectStore.objects == old(objectStore.objects))
    {
      var metadata := objectStore.HeadArtifact(c.ref);
      answer := Answer(metadata, false);
      if metadata.None? {
        return FailedWith("head failed"), answer;
      }
      if metadata.value.kind != c.kind || metadata.value.sha != c.sha || metadata.value.project != project {
        return FailedWith("ValueError"), answer;
      }
      var ok := objectStore.DeleteArtifact(c.ref);
      answer := Answer(metadata, ok);
      outcome := if ok then DeletedNow else FailedWith("delete failed");
    }

    method RunCleanup(dryRun: bool, limit: nat, startedAt: int, completedAt: int)
      returns (run: Run, ghost candidates: seq<Candidate>, ghost outcomes: seq<Outcome>, ghost answers: seq<Answer>)
      requires UniqueIds(admissions)
      modifies this`admissions, this`runs, objectStore
      ensures UniqueIds(admissions)
      ensures candidates == Limited(Candidates(old(admissions), startedAt), limit)
      ensures candidates <= Candidates(old(admissions), startedAt) && |candidates| <= limit
      ensures |candidates| == limit || candidates == Candidates(old(admissions), startedAt)
      ensures runs == old(runs) + [run]
      // A dry run changes nothing else
      ensures dryRun ==>
                && admissions == old(admissions) && objectStore.objects == old(objectStore.objects)
                && objectStore.calls == old(objectStore.calls)
                && run == Run(
                   Succeeded, true, |candidates|, 0, 0, RetainedCount(old(admissions), completedAt), candidates)
      // A real run writes exactly the outcomes of the candidates, whichever keys they share an admission with
      ensures !dryRun ==>
                && |outcomes| == |candidates|
                && admissions == MarkAll(old(admissions), candidates, outcomes, startedAt)
                && (var deleted := DeletedIn(outcomes);
                    run == Run(StatusOf(|candidates|, deleted, |candidates| - deleted), false, |candidates|,
                               deleted, |candidates| - deleted, RetainedCount(admissions, completedAt),
                               Reports(candidates, outcomes)))
      // Every object that went was the artifact of a deleted candidate
      ensures !dryRun ==> Accounted(project, old(objectStore.objects), objectStore.objects, candidates, outcomes)
      // An outcome is a deletion exactly when the store confirmed one
      ensures !dryRun ==>
                && |answers| == |candidates|
                && objectStore.calls == old(objectStore.calls) + AllCalls(candidates, project, answers)
                && (forall i | 0 <= i < |candidates| ::
                      outcomes[i].DeletedNow? <==> Confirms(candidates[i], project, answers[i]))
      ensures run.deletedCount == ConfirmedDeletes(objectStore.calls) - ConfirmedDeletes(old(objectStore.calls))
      ensures run.status == Succeeded <==> run.failedCount == 0
      ensures run.status == Failed <==> run.failedCount > 0 && run.deletedCount == 0
      // With a store that never fails, the first candidate that matches an object deletes it
      ensures !dryRun && objectStore.reliable ==>
                && (forall i | 0 <= i < |candidates| ::
                      outcomes[i].DeletedNow? <==>
                      DeletesFirst(old(objectStore.objects), candidates, outcomes, i, project))
                && (run.status == Succeeded <==> AllMatch(old(objectStore.objects), candidates, project))
    {
      hide Marked, MarkAll, Accounted, Reports, Candidates, RetainedCount, Locates;
      hide AllCalls, Matches, DeletesFirst, AllMatch;
      hide ConfirmedDeletes, Confirms;
      var collected := CollectCandidates(admissions, startedAt);
      var cs := if |collected| <= limit then collected else collected[..limit];
      candidates, outcomes, answers := cs, [], [];
      CandidatesLocate(admissions, startedAt);
      assert forall i | 0 <= i < |cs| :: cs[i] in Candidates(admissions, startedAt);
      if dryRun {
        var retained := CountRetained(admissions, completedAt);
        run := Run(Succeeded, true, |cs|, 0, 0, retained, cs);
        runs := runs + [run];
        return;
      }
      var final, deletedCount, failedCount;
      final, deletedCount, failedCount, outcomes, answers := ProcessCandidates(cs, startedAt);
      ConfirmedConcat(old(objectStore.calls), AllCalls(cs, project, answers));
      ConfirmedIsDeleted(cs, project, answers, outcomes);
      AllDeletedIff(outcomes);
      if objectStore.reliable {
        AllDeletedMeans(old(objectStore.objects), cs, outcomes, project);
      }
      var retained := CountRetained(admissions, completedAt);
      run := Run(StatusOf(|cs|, deletedCount, failedCount), false, |cs|, deletedCount, failedCount, retained, final);
      runs := runs + [run];
    }

    method IndexAdmissions() returns (admissionById: map<Id, Admission>)
      requires UniqueIds(admissions)
      ensures Indexed(admissions, admissionById)
    {
      admissionById := map[];
      for i := 0 to |admissions|
        invariant Indexed(admissions[..i], admissionById)
      {
        admissionById := admissionById[admissions[i].id := admissions[i]];
      }
      assert admissions[..|admissions|] == admissions;
    }

    /** The deletion loop, working on `admissionById` and writing every change through to the table. */
    method ProcessCandidates(cs: seq<Candidate>, startedAt: int)
      returns (
        final: seq<Candidate>, deletedCount: nat, failedCount: nat, ghost outcomes: seq<Outcome>,
        ghost answers: seq<Answer>)
      requires UniqueIds(admissions) && forall i | 0 <= i < |cs| :: Locates(admissions, cs[i])
      modifies this`admissions, objectStore
      ensures |outcomes| == |cs|
      ensures admissions == MarkAll(old(admissions), cs, outcomes, startedAt)
      ensures UniqueIds(admissions)
      ensures final == Reports(cs, outcomes)
      ensures deletedCount == DeletedIn(outcomes) && deletedCount + failedCount == |cs|
      ensures Accounted(project, old(objectStore.objects), objectStore.objects, cs, outcomes)
      ensures |answers| == |cs| && objectStore.calls == old(objectStore.calls) + AllCalls(cs, project, answers)
      ensures forall i | 0 <= i < |cs| :: outcomes[i].DeletedNow? <==> Confirms(cs[i], project, answers[i])
      ensures objectStore.reliable ==> forall i | 0 <= i < |cs| ::
                outcomes[i].DeletedNow? <==> DeletesFirst(old(objectStore.objects), cs, outcomes, i, project)
    {
      hide Marked, Mark, MarkAll, Reports, Reported, Accounted, Written, Locates, Indexed, UniqueIds;
      hide AllCalls, CallsFor, Confirms, ErrorTells, Matches, DeletesFirst, Tallied, DeletedIn;
      var admissionById: map<Id, Admission> := IndexAdmissions();
      final, deletedCount, failedCount, outcomes, answers := [], 0, 0, [], [];
      NothingDone(admissions, cs, startedAt, objectStore.objects, objectStore.calls, project);
      for i := 0 to |cs|
        invariant |outcomes| == |answers| == i && final == Reports(cs[..i], outcomes)
        invariant admissions == MarkAll(old(admissions), cs[..i], outcomes, startedAt)
        invariant Indexed(admissions, admissionById)
        invariant Tallied(project, objectStore.reliable, old(objectStore.objects), objectStore.objects,
                    old(objectStore.calls), objectStore.calls, cs, i, outcomes, answers, deletedCount, failedCount)
      {
        var c := cs[i];
        Located(old(admissions), cs, i, outcomes, startedAt);
        LookupFinds(admissions, admissionById, c);
        if c.admission !in admissionById {
          continue;
        }
        var admission := admissionById[c.admission];
        var evidence := admission.evidence;
        if c.key !in evidence || !evidence[c.key].Dict? {
          continue;
        }
        ghost var objects, calls := objectStore.objects, objectStore.calls;
        var outcome, answer := TryDelete(c);
        evidence := evidence[c.key := Dict(Mark(evidence[c.key].d, outcome, startedAt))];
        TalliedNext(project, objectStore.reliable, old(objectStore.objects), objects, objectStore.objects,
          old(objectStore.calls), calls, objectStore.calls, cs, i, outcomes, answers, deletedCount, failedCount,
          outcome, answer);
        ReportNext(cs, i, outcomes, outcome);
        final := final + [Reported(c, outcome)];
        if outcome.DeletedNow? {
          deletedCount := deletedCount + 1;
        } else {
          failedCount := failedCount + 1;
        }
        MarkNext(old(admissions), admissions, cs, i, outcomes, outcome, startedAt, admission, evidence);
        IndexNext(admissions, admissionById, admission, evidence);
        UpdateEvidence(admission.id, evidence);
        admissionById := admissionById[admission.id := admission.(evidence := evidence)];
        outcomes, answers := outcomes + [outcome], answers + [answer];
      }
      assert cs[..|cs|] == cs;
      TalliedAll(project, objectStore.reliable, old(objectStore.objects), objectStore.objects,
        old(objectStore.calls), objectStore.calls, cs, outcomes, answers, deletedCount, failedCount);
      MarkAllUnique(old(admissions), cs, outcomes, startedAt);
    }
  }

  /** Every admission of the table, and nothing else, is in the dictionary under its identifier. */
  ghost predicate Indexed(admissions: seq<Admission>, byId: map<Id, Admission>) {
    && (forall j | 0 <= j < |admissions| :: admissions[j].id in byId && byId[admissions[j].id] == admissions[j])
    && (forall id | id in byId :: exists j :: 0 <= j < |admissions| && admissions[j] == byId[id] && byId[id].id == id)
  }

  lemma {:induction false} IndexNext(
    admissions: seq<Admission>, byId: map<Id, Admission>, admission: Admission, evidence: map<string, Evidence>)
    requires Indexed(admissions, byId) && admission.id in byId && byId[admission.id] == admission
    ensures Indexed(Written(admissions, admission.id, evidence),
                    byId[admission.id := admission.(evidence := evidence)])
  {
    var written, byId' :=
      Written(admissions, admission.id, evidence), byId[admission.id := admission.(evidence := evidence)];
    forall id | id in byId'
      ensures exists j :: 0 <= j < |written| && written[j] == byId'[id] && byId'[id].id == id
    {
      var j :| 0 <= j < |admissions| && admissions[j] == byId[id] && byId[id].id == id;
      assert written[j] == byId'[id];
    }
  }

  lemma {:induction false} LookupFinds(admissions: seq<Admission>, byId: map<Id, Admission>, c: Candidate)
    requires Indexed(admissions, byId) && Locates(admissions, c)
    ensures c.admission in byId && IsAt(byId[c.admission], c)
    ensures exists j :: 0 <= j < |admissions| && admissions[j] == byId[c.admission]
  {}

  lemma {:induction false} NothingDone(
    admissions: seq<Admission>, cs: seq<Candidate>, startedAt: int, objects: map<string, Metadata>, calls: seq<Call>,
    project: Id)
    ensures MarkAll(admissions, cs[..0], [], startedAt) == admissions && Reports(cs[..0], []) == []
    ensures forall reliable :: Tallied(project, reliable, objects, objects, calls, calls, cs, 0, [], [], 0, 0)
  {
    assert calls + AllCalls(cs[..0], project, []) == calls;
  }

  /** The store and the counters after `i` candidates; `before` and `earlier` are its objects and calls at the start. */
  ghost predicate Tallied(
    project: Id, reliable: bool, before: map<string, Metadata>, after: map<string, Metadata>, earlier: seq<Call>,
    calls: seq<Call>, cs: seq<Candidate>, i: nat, os: seq<Outcome>, answers: seq<Answer>, deleted: nat, failed: nat) {
    && |os| == |answers| == i <= |cs| && deleted == DeletedIn(os) && deleted + failed == i
    && Accounted(project, before, after, cs[..i], os)
    && calls == earlier + AllCalls(cs[..i], project, answers)
    && (forall k | 0 <= k < i :: os[k].DeletedNow? <==> Confirms(cs[k], project, answers[k]))
    && (reliable ==> Deletes(before, after, cs, os, project))
  }

  lemma {:induction false} TalliedNext(
    project: Id, reliable: bool, before: map<string, Metadata>, mid: map<string, Metadata>,
    after: map<string, Metadata>, earlier: seq<Call>, soFar: seq<Call>, calls: seq<Call>, cs: seq<Candidate>, i: nat,
    os: seq<Outcome>, answers: seq<Answer>, deleted: nat, failed: nat, outcome: Outcome, answer: Answer)
    requires i < |cs|
    requires Tallied(project, reliable, before, mid, earlier, soFar, cs, i, os, answers, deleted, failed)
    requires calls == soFar + CallsFor(cs[i], project, answer)
    requires outcome.DeletedNow? <==> Confirms(cs[i], project, answer)
    requires after == mid || Matches(mid, cs[i], project)
    requires after == mid - {cs[i].ref} || (outcome.FailedWith? && after == mid)
    requires reliable ==>
               && (outcome.DeletedNow? <==> Matches(mid, cs[i], project)) && (outcome.FailedWith? ==> after == mid)
    ensures Tallied(project, reliable, before, after, earlier, calls, cs, i + 1, os + [outcome], answers + [answer],
              deleted + One(outcome.DeletedNow?), failed + One(!outcome.DeletedNow?))
  {
    hide AllCalls, CallsFor, Confirms, Matches, Accounted, Deletes;
    AccountNext(project, before, mid, after, cs, i, os, outcome);
    CallsNext(cs, i, project, answers, answer);
    if reliable {
      DeletesNext(before, mid, after, cs, i, os, outcome, project);
    }
    assert (os + [outcome])[..i] == os;
  }

  lemma {:induction false} TalliedAll(
    project: Id, reliable: bool, before: map<string, Metadata>, after: map<string, Metadata>, earlier: seq<Call>,
    calls: seq<Call>, cs: seq<Candidate>, os: seq<Outcome>, answers: seq<Answer>, deleted: nat, failed: nat)
    requires Tallied(project, reliable, before, after, earlier, calls, cs, |cs|, os, answers, deleted, failed)
    ensures deleted == DeletedIn(os) && deleted + failed == |cs| && Accounted(project, before, after, cs, os)
    ensures |answers| == |os| == |cs| && calls == earlier + AllCalls(cs, project, answers)
    ensures forall k | 0 <= k < |cs| :: os[k].DeletedNow? <==> Confirms(cs[k], project, answers[k])
    ensures reliable ==> forall i | 0 <= i < |cs| :: os[i].DeletedNow? <==> DeletesFirst(before, cs, os, i, project)
  {
    hide AllCalls, Confirms, Accounted, Deletes, DeletesFirst;
    assert cs[..|cs|] == cs;
    if reliable {
      DeletesAll(before, after, cs, os, project);
    }
  }

  lemma {:induction false} CallsNext(cs: seq<Candidate>, i: nat, project: Id, answers: seq<Answer>, answer: Answer)
    requires i < |cs| && |answers| == i
    ensures AllCalls(cs[..i + 1], project, answers + [answer]) ==
            AllCalls(cs[..i], project, answers) + CallsFor(cs[i], project, answer)
  {
    hide CallsFor;
    assert cs[..i + 1][..i] == cs[..i] && (answers + [answer])[..i] == answers;
  }

  /** Candidate `i` matches an object and no earlier candidate deleted it. */
  ghost predicate DeletesFirst(
    before: map<string, Metadata>, cs: seq<Candidate>, os: seq<Outcome>, i: nat, project: Id)
    requires i < |os| <= |cs|
  {
    Matches(before, cs[i], project) && forall k | 0 <= k < i :: !(os[k].DeletedNow? && cs[k].ref == cs[i].ref)
  }

  /** What a reliable store holds after the first candidates: all but the objects of the deleted ones. */
  ghost predicate Deletes(
    before: map<string, Metadata>, after: map<string, Metadata>, cs: seq<Candidate>, os: seq<Outcome>, project: Id)
    requires |os| <= |cs|
  {
    && (forall r :: r in after <==> r in before && forall k | 0 <= k < |os| :: !(os[k].DeletedNow? && cs[k].ref == r))
    && (forall r | r in after :: r in before && after[r] == before[r])
    && (forall i | 0 <= i < |os| :: os[i].DeletedNow? <==> DeletesFirst(before, cs, os, i, project))
  }

  lemma {:induction false} DeletesNext(
    before: map<string, Metadata>, mid: map<string, Metadata>, after: map<string, Metadata>,
    cs: seq<Candidate>, i: nat, os: seq<Outcome>, outcome: Outcome, project: Id)
    requires i < |cs| && |os| == i && Deletes(before, mid, cs, os, project)
    requires outcome.DeletedNow? <==> Matches(mid, cs[i], project)
    requires after == if outcome.DeletedNow? then mid - {cs[i].ref} else mid
    ensures Deletes(before, after, cs, os + [outcome], project)
  {
    var more := os + [outcome];
    assert forall k | 0 <= k < i :: more[k] == os[k];
    forall k | 0 <= k <= i
      ensures more[k].DeletedNow? <==> DeletesFirst(before, cs, more, k, project)
    {
      if k < i {
        assert os[k].DeletedNow? <==> DeletesFirst(before, cs, os, k, project);
      }
    }
    forall r
      ensures r in after <==> r in before && forall k | 0 <= k <= i :: !(more[k].DeletedNow? && cs[k].ref == r)
    {
      assert more[i] == outcome;
    }
  }

  lemma {:induction false} DeletesAll(
    before: map<string, Metadata>, after: map<string, Metadata>, cs: seq<Candidate>, os: seq<Outcome>, project: Id)
    requires |os| == |cs| && Deletes(before, after, cs, os, project)
    ensures forall i | 0 <= i < |cs| :: os[i].DeletedNow? <==> DeletesFirst(before, cs, os, i, project)
  {
    hide DeletesFirst;
  }

  /** Every candidate matches an object of its own. */
  ghost predicate AllMatch(before: map<string, Metadata>, cs: seq<Candidate>, project: Id) {
    && (forall i | 0 <= i < |cs| :: Matches(before, cs[i], project))
    && (forall i, k | 0 <= k < i < |cs| :: cs[k].ref != cs[i].ref)
  }

  lemma {:induction false} AllDeletedMeans(
    before: map<string, Metadata>, cs: seq<Candidate>, os: seq<Outcome>, project: Id)
    requires |os| == |cs|
    requires forall i | 0 <= i < |cs| :: os[i].DeletedNow? <==> DeletesFirst(before, cs, os, i, project)
    ensures (forall i | 0 <= i < |cs| :: os[i].DeletedNow?) <==> AllMatch(before, cs, project)
  {
    hide Matches;
    if forall i | 0 <= i < |cs| :: os[i].DeletedNow? {
      forall i, k | 0 <= k < i < |cs|
        ensures cs[k].ref != cs[i].ref
      {
        assert DeletesFirst(before, cs, os, i, project) && os[k].DeletedNow?;
      }
      forall i | 0 <= i < |cs|
        ensures Matches(before, cs[i], project)
      {
        assert os[i].DeletedNow? && DeletesFirst(before, cs, os, i, project);
      }
    }
    if AllMatch(before, cs, project) {
      forall i | 0 <= i < |cs|
        ensures os[i].DeletedNow?
      {
        assert DeletesFirst(before, cs, os, i, project);
      }
    }
  }

  lemma {:induction false} ReportNext(cs: seq<Candidate>, i: nat, os: seq<Outcome>, outcome: Outcome)
    requires i < |cs| && |os| == i
    ensures Reports(cs[..i + 1], os + [outcome]) == Reports(cs[..i], os) + [Reported(cs[i], outcome)]
  {
    hide Reported;
  }

  lemma {:induction false} MarkAllUnique(
    admissions: seq<Admission>, cs: seq<Candidate>, os: seq<Outcome>, startedAt: int)
    requires |os| == |cs| && UniqueIds(admissions)
    ensures UniqueIds(MarkAll(admissions, cs, os, startedAt))
  {
    hide Marked;
  }

  function Written(admissions: seq<Admission>, id: Id, evidence: map<string, Evidence>): seq<Admission> {
    seq(|admissions|, i requires 0 <= i < |admissions| =>
      if admissions[i].id == id then admissions[i].(evidence := evidence) else admissions[i])
  }

  predicate Matches(objects: map<string, Metadata>, c: Candidate, project: Id) {
    c.ref in objects && objects[c.ref] == Metadata(c.kind, c.sha, project)
  }

  function DeletedRefs(cs: seq<Candidate>, os: seq<Outcome>): set<string>
    requires |os| == |cs|
  {
    set i | 0 <= i < |cs| && os[i].DeletedNow? :: cs[i].ref
  }

  /** Objects of deleted candidates are gone, nothing is gone but an object that a candidate of the project describes,
      and nothing is changed. */
  ghost predicate Accounted(
    project: Id, before: map<string, Metadata>, after: map<string, Metadata>, cs: seq<Candidate>, os: seq<Outcome>)
    requires |os| == |cs|
  {
    && after.Keys !! DeletedRefs(cs, os)
    && (forall r | r in before && r !in after ::
          exists i :: 0 <= i < |cs| && cs[i].ref == r && Matches(before, cs[i], project))
    && forall r | r in after :: r in before && after[r] == before[r]
  }

  lemma {:induction false} AccountNext(
    project: Id, before: map<string, Metadata>, mid: map<string, Metadata>, after: map<string, Metadata>,
    cs: seq<Candidate>, i: nat, os: seq<Outcome>, outcome: Outcome)
    requires i < |cs| && |os| == i && Accounted(project, before, mid, cs[..i], os)
    requires after == mid || Matches(mid, cs[i], project)
    requires after == mid - {cs[i].ref} || (outcome.FailedWith? && after == mid)
    ensures Accounted(project, before, after, cs[..i + 1], os + [outcome])
  {
    var init, next := cs[..i], cs[..i + 1];
    forall r | r in before && r !in after
      ensures exists k :: 0 <= k < |next| && next[k].ref == r && Matches(before, next[k], project)
    {
      if r !in mid {
        var k :| 0 <= k < |init| && init[k].ref == r && Matches(before, init[k], project);
        assert next[k] == init[k];
      } else {
        assert next[i] == cs[i];
      }
    }
    assert cs[..i + 1] == cs[..i] + [cs[i]];
    var os' := os + [outcome];
    assert DeletedRefs(cs[..i + 1], os') ==
           DeletedRefs(cs[..i], os) + if outcome.DeletedNow? then {cs[i].ref} else {} by {
      assert forall k | 0 <= k < i :: os'[k] == os[k] && cs[..i + 1][k] == cs[..i][k];
      assert os'[i] == outcome && cs[..i + 1][i] == cs[i];
    }
  }

  /** The candidate's admission is in the table, with a descriptor under its key. */
  predicate Locates(admissions: seq<Admission>, c: Candidate) {
    exists i :: 0 <= i < |admissions| && IsAt(admissions[i], c)
  }

  predicate IsAt(a: Admission, c: Candidate) {
    a.id == c.admission && c.key in a.evidence && a.evidence[c.key].Dict?
  }

  lemma {:induction false} CandidatesLocate(admissions: seq<Admission>, now: int)
    ensures forall c | c in Candidates(admissions, now) :: Locates(admissions, c)
  {
    if admissions != [] {
      var init, last := admissions[..|admissions| - 1], admissions[|admissions| - 1];
      CandidatesLocate(init, now);
      forall c | c in Candidates(admissions, now)
        ensures Locates(admissions, c)
      {
        if c in Candidates(init, now) {
          var i :| 0 <= i < |init| && IsAt(init[i], c);
          assert admissions[i] == init[i];
        } else {
          assert c in CandidatesOf(last, now);
          assert IsAt(admissions[|admissions| - 1], c);
        }
      }
    }
  }

  lemma {:induction false} NothingMarked(admissions: seq<Admission>, startedAt: int)
    ensures MarkAll(admissions, [], [], startedAt) == admissions
  {}

  lemma {:induction false} MarkedKeepsDict(
    evidence: map<string, Evidence>, id: Id, cs: seq<Candidate>, os: seq<Outcome>, startedAt: int, key: string)
    requires |os| == |cs| && key in evidence
    ensures Marked(evidence, id, cs, os, startedAt)[key].Dict? <==> evidence[key].Dict?
  {
    if cs != [] {
      MarkedKeepsDict(evidence, id, cs[..|cs| - 1], os[..|cs| - 1], startedAt, key);
    }
  }

  /** The lookups of the loop succeed: neither `continue` is ever taken. */
  lemma {:induction false} Located(
    admissions: seq<Admission>, cs: seq<Candidate>, i: nat, os: seq<Outcome>, startedAt: int)
    requires i < |cs| && |os| == i && Locates(admissions, cs[i])
    ensures Locates(MarkAll(admissions, cs[..i], os, startedAt), cs[i])
  {
    hide Marked;
    var j :| 0 <= j < |admissions| && IsAt(admissions[j], cs[i]);
    MarkedKeepsDict(admissions[j].evidence, admissions[j].id, cs[..i], os, startedAt, cs[i].key);
    assert IsAt(MarkAll(admissions, cs[..i], os, startedAt)[j], cs[i]);
  }

  lemma {:induction false} MarkedNext(
    evidence: map<string, Evidence>, id: Id, cs: seq<Candidate>, i: nat, os: seq<Outcome>, outcome: Outcome,
    startedAt: int)
    requires i < |cs| && |os| == i
    ensures Marked(evidence, id, cs[..i + 1], os + [outcome], startedAt) ==
            var before, c := Marked(evidence, id, cs[..i], os, startedAt), cs[i];
            if c.admission == id && c.key in before && before[c.key].Dict?
            then before[c.key := Dict(Mark(before[c.key].d, outcome, startedAt))] else before
  {
    assert cs[..i + 1][..i] == cs[..i] && (os + [outcome])[..i] == os;
  }

  /** Writing the marked evidence of the located admission marks exactly one more candidate. */
  lemma {:induction false} MarkNext(
    original: seq<Admission>, admissions: seq<Admission>, cs: seq<Candidate>, i: nat, os: seq<Outcome>,
    outcome: Outcome,
    startedAt: int, admission: Admission, evidence: map<string, Evidence>)
    requires i < |cs| && |os| == i && UniqueIds(original)
    requires admissions == MarkAll(original, cs[..i], os, startedAt)
    requires exists j :: 0 <= j < |admissions| && admissions[j] == admission
    requires IsAt(admission, cs[i])
    requires evidence == admission.evidence[
                           cs[i].key := Dict(Mark(admission.evidence[cs[i].key].d, outcome, startedAt))]
    ensures Written(admissions, admission.id, evidence) == MarkAll(original, cs[..i + 1], os + [outcome], startedAt)
  {
    hide Marked, Mark;
    var j :| 0 <= j < |admissions| && admissions[j] == admission;
    forall k | 0 <= k < |original|
      ensures Written(admissions, admission.id, evidence)[k] ==
              MarkAll(original, cs[..i + 1], os + [outcome], startedAt)[k]
    {
      MarkedNext(original[k].evidence, original[k].id, cs, i, os, outcome, startedAt);
      assert original[k].id == admission.id ==> k == j by {
        assert original[j].id == admission.id;
      }
    }
  }
}
