/** Prompt releases under interleaved publishers: one active release per label, checked at commit. */
module PromptReleases {
  import opened Common
  import opened Characters

  datatype Template = Template(project: Id, ref: string, active: bool)

  datatype Version = Version(project: Id, template: Id, version: string, active: bool)

  /** What the partial unique index ranges over; `tag` is the release label. */
  datatype ReleaseKey = ReleaseKey(project: Id, template: Id, tag: string, environment: string)

  datatype Release = Release(
    key: ReleaseKey, templateRef: string, version: Id, active: bool, protected: bool, gatePassed: bool,
    evalRun: Option<Id>)

  datatype EvalRun = EvalRun(
    project: Id, completed: bool, caseCount: int, leakageCount: int, deletedVisibleCount: int,
    recallAtK: real, mrr: real, contextRecall: real)

  datatype PublishRequest = PublishRequest(
    project: Id, templateRef: string, version: string, tag: string, environment: string, evalRun: Option<Id>)

  /** A transaction between its writes and its commit: the rows it archived and the row it will insert. `begun` is the
      number of releases committed when it read, `evidence` the eval run its gate saw. */
  datatype Pending = Pending(release: Release, archived: set<nat>, begun: nat, evidence: Option<EvalRun>)

  datatype State = State(
    templates: seq<Template>, versions: seq<Version>, evalRuns: map<Id, EvalRun>,
    releases: seq<Release>, evidence: seq<Option<EvalRun>>, pending: map<Id, Pending>, nextTicket: Id)

  datatype Outcome =
    | Begun(ticket: Id) | BlankLabel | BlankEnvironment | VersionNotFound | GateFailed | Committed | Conflict | NoTicket
    | Changed

  // --- Names and the gate -----------------------------------------------------------------------

  function NormalizePart(s: string): string { Lower(Strip(s)) }

  lemma LowerCharOnce(c: char)
    ensures IsSpace(LowerChar(c)) == IsSpace(c) && LowerChar(LowerChar(c)) == LowerChar(c)
  {}

  lemma LowerOnce(t: string)
    requires Trimmed(t)
    ensures Trimmed(Lower(t)) && Lower(Lower(t)) == Lower(t)
  {
    hide Lower, LowerChar, IsSpace;
    forall i | 0 <= i < |t|
      ensures Lower(Lower(t))[i] == Lower(t)[i] && IsSpace(Lower(t)[i]) == IsSpace(t[i])
    {
      LowerCharOnce(t[i]);
    }
  }

  /** A stored label is its own normal form, so looking it up by the stored text finds it. */
  lemma NormalizePartIdempotent(s: string)
    ensures NormalizePart(NormalizePart(s)) == NormalizePart(s)
  {
    hide Strip, Lower, Trimmed;
    LowerOnce(Strip(s));
    StripOfTrimmed(Lower(Strip(s)));
  }

  predicate IsProtected(tag: string) { tag in {"production", "staging", "latest"} }

  predicate GatePasses(run: EvalRun) {
    && run.completed && run.caseCount > 0 && run.leakageCount <= 0 && run.deletedVisibleCount <= 0
    && run.recallAtK >= 0.8 && run.mrr >= 0.5 && run.contextRecall >= 0.8
  }

  predicate GateOpen(s: State, project: Id, evalRun: Option<Id>, protected: bool) {
    protected ==>
      && evalRun.Some? && evalRun.value in s.evalRuns && s.evalRuns[evalRun.value].project == project
      && GatePasses(s.evalRuns[evalRun.value])
  }

  // --- Finding rows -----------------------------------------------------------------------------------

  predicate VersionServes(s: State, id: int, project: Id, templateRef: string) {
    && 0 <= id < |s.versions| && s.versions[id].project == project && s.versions[id].active
    && s.versions[id].template < |s.templates|
    && var template := s.templates[s.versions[id].template];
       template.project == project && template.ref == templateRef && template.active
  }

  /** The first of the versions from n on that serves and has this name, or the number of versions. */
  function FindVersion(s: State, project: Id, templateRef: string, version: string, n: nat): (k: nat)
    requires n <= |s.versions|
    ensures n <= k <= |s.versions|
    ensures k < |s.versions| ==> VersionServes(s, k, project, templateRef) && s.versions[k].version == version
    ensures forall i | n <= i < k :: !(VersionServes(s, i, project, templateRef) && s.versions[i].version == version)
    decreases |s.versions| - n
  {
    if n == |s.versions| || (VersionServes(s, n, project, templateRef) && s.versions[n].version == version) then n
    else FindVersion(s, project, templateRef, version, n + 1)
  }

  /** The active releases of a key among the first n. */
  function ActiveOf(releases: seq<Release>, key: ReleaseKey, n: nat): (r: set<nat>)
    requires n <= |releases|
    ensures forall i: nat :: i in r <==> i < n && releases[i].active && releases[i].key == key
  {
    if n == 0 then {}
    else ActiveOf(releases, key, n - 1) + if releases[n - 1].active && releases[n - 1].key == key then {n - 1} else {}
  }

  // --- Publishing ----------------------------------------------------------------------------------------

  function Begin(s: State, request: PublishRequest): (State, Outcome) {
    var tag, environment := NormalizePart(request.tag), NormalizePart(request.environment);
    if tag == "" then (s, BlankLabel)
    else if environment == "" then (s, BlankEnvironment)
    else
      var version := FindVersion(s, request.project, request.templateRef, request.version, 0);
      if version == |s.versions| then (s, VersionNotFound)
      else if !GateOpen(s, request.project, request.evalRun, IsProtected(tag)) then (s, GateFailed)
      else
        var key := ReleaseKey(request.project, s.versions[version].template, tag, environment);
        var release :=
          Release(key, request.templateRef, version, true, IsProtected(tag), IsProtected(tag), request.evalRun);
        var evidence := if IsProtected(tag) then Some(s.evalRuns[request.evalRun.value]) else None;
        var pending := Pending(release, ActiveOf(s.releases, key, |s.releases|), |s.releases|, evidence);
        (s.(pending := s.pending[s.nextTicket := pending], nextTicket := s.nextTicket + 1), Begun(s.nextTicket))
  }

  function Archived(releases: seq<Release>, ids: set<nat>): (r: seq<Release>)
    ensures |r| == |releases|
  {
    seq(|releases|, i requires 0 <= i < |releases| =>
      if i in ids then releases[i].(active := false) else releases[i])
  }

  /** The partial unique index over (project, template, label, environment) where status is active. */
  predicate UniqueActive(releases: seq<Release>) {
    forall i, j | 0 <= i < j < |releases| ::
      !(releases[i].active && releases[j].active && releases[i].key == releases[j].key)
  }

  /** Commit of one publisher: its writes become visible together or, if the index refuses them, not at all. */
  function Commit(s: State, ticket: Id): (State, Outcome) {
    if ticket !in s.pending then (s, NoTicket)
    else
      var p := s.pending[ticket];
      var rest := map id | id in s.pending && id != ticket :: s.pending[id];
      var written := Archived(s.releases, p.archived) + [p.release];
      if UniqueActive(written)
      then (s.(releases := written, evidence := s.evidence + [p.evidence], pending := rest), Committed)
      else (s.(pending := rest), Conflict)
  }

  // --- Looking up ----------------------------------------------------------------------------------------

  predicate ReleaseServes(s: State, i: int, project: Id, templateRef: string, tag: string, environment: string) {
    && 0 <= i < |s.releases|
    && s.releases[i].key.project == project && s.releases[i].templateRef == templateRef && s.releases[i].active
    && s.releases[i].key.tag == NormalizePart(tag) && s.releases[i].key.environment == NormalizePart(environment)
    && VersionServes(s, s.releases[i].version, project, templateRef)
  }

  /** The newest of the first n releases that serves the label, as the version it points to. */
  function Lookup(s: State, project: Id, templateRef: string, tag: string, environment: string, n: nat): (r: Option<Id>)
    requires n <= |s.releases|
  {
    if n == 0 then None
    else if ReleaseServes(s, n - 1, project, templateRef, tag, environment) then Some(s.releases[n - 1].version)
    else Lookup(s, project, templateRef, tag, environment, n - 1)
  }

  // --- The store ---------------------------------------------------------------------------------------------

  class ModelGatewayStore {
    var templates: seq<Template>
    var versions: seq<Version>
    var evalRuns: map<Id, EvalRun>
    var releases: seq<Release>
    ghost var evidence: seq<Option<EvalRun>>
    var pending: map<Id, Pending>
    var nextTicket: Id

    ghost function Abstract(): State
      reads this
    {
      State(templates, versions, evalRuns, releases, evidence, pending, nextTicket)
    }

    constructor ()
      ensures Abstract() == State([], [], map[], [], [], map[], 0)
    {
      templates, versions, evalRuns, releases, evidence, pending, nextTicket := [], [], map[], [], [], map[], 0;
    }

    method ValidateEvalGate(project: Id, evalRun: Option<Id>, protected: bool) returns (passed: bool)
      ensures passed == GateOpen(Abstract(), project, evalRun, protected)
    {
      if !protected {
        return true;
      }
      if evalRun.None? || evalRun.value !in evalRuns {
        return false;
      }
      var run := evalRuns[evalRun.value];
      if run.project != project || !run.completed || run.caseCount <= 0 {
        return false;
      }
      if run.leakageCount > 0 || run.deletedVisibleCount > 0 {
        return false;
      }
      if run.recallAtK < 0.8 || run.mrr < 0.5 || run.contextRecall < 0.8 {
        return false;
      }
      passed := true;
    }

    method VersionActive(id: Id, project: Id, templateRef: string) returns (serves: bool)
      ensures serves == VersionServes(Abstract(), id, project, templateRef)
    {
      if id >= |versions| || versions[id].project != project || !versions[id].active
         || versions[id].template >= |templates| {
        return false;
      }
      var template := templates[versions[id].template];
      serves := template.project == project && template.ref == templateRef && template.active;
    }

    method GetVersion(project: Id, templateRef: string, version: string) returns (k: nat)
      ensures k == FindVersion(Abstract(), project, templateRef, version, 0)
    {
      hide VersionServes;
      k := 0;
      while k < |versions|
        invariant k <= |versions|
        invariant FindVersion(Abstract(), project, templateRef, version, 0) ==
                  FindVersion(Abstract(), project, templateRef, version, k)
      {
        var serves := VersionActive(k, project, templateRef);
        if serves && versions[k].version == version {
          return;
        }
        k := k + 1;
      }
    }

    /** The checks and writes of a publisher, up to its commit. */
    method BeginRelease(request: PublishRequest) returns (outcome: Outcome)
      modifies this
      ensures (Abstract(), outcome) == Begin(old(Abstract()), request)
    {
      hide NormalizePart, GateOpen, FindVersion;
      var tag, environment := NormalizePart(request.tag), NormalizePart(request.environment);
      if tag == "" {
        return BlankLabel;
      }
      if environment == "" {
        return BlankEnvironment;
      }
      var version := GetVersion(request.project, request.templateRef, request.version);
      if version == |versions| {
        return VersionNotFound;
      }
      var protected := tag in {"production", "staging", "latest"};
      var passed := ValidateEvalGate(request.project, request.evalRun, protected);
      if !passed {
        return GateFailed;
      }
      var key := ReleaseKey(request.project, versions[version].template, tag, environment);
      var archived := ActiveReleases(key);
      GateEvidence(Abstract(), request.project, request.evalRun, protected);
      var seen := if protected then Some(evalRuns[request.evalRun.value]) else None;
      var release := Release(key, request.templateRef, version, true, protected, protected, request.evalRun);
      outcome := Begun(nextTicket);
      pending := pending[nextTicket := Pending(release, archived, |releases|, seen)];
      nextTicket := nextTicket + 1;
    }

    method ActiveReleases(key: ReleaseKey) returns (ids: set<nat>)
      ensures ids == ActiveOf(releases, key, |releases|)
    {
      ids := {};
      for i := 0 to |releases|
        invariant ids == ActiveOf(releases, key, i)
      {
        if releases[i].active && releases[i].key == key {
          ids := ids + {i};
        }
      }
    }

    /** Applies the writes, lets the index judge them, and rolls back if it refuses. */
    method CommitRelease(ticket: Id) returns (outcome: Outcome)
      modifies this
      ensures (Abstract(), outcome) == Commit(old(Abstract()), ticket)
    {
      hide UniqueActive;
      if ticket !in pending {
        return NoTicket;
      }
      var p := pending[ticket];
      var before := releases;
      pending := map id | id in pending && id != ticket :: pending[id];
      for i := 0 to |releases|
        invariant |releases| == |before| && pending == old(Abstract()).pending - {ticket}
        invariant forall j | 0 <= j < i :: releases[j] == if j in p.archived then
                  before[j].(active := false) else before[j]
        invariant forall j | i <= j < |before| :: releases[j] == before[j]
        invariant Abstract() == old(Abstract()).(releases := releases, pending := pending)
      {
        if i in p.archived {
          releases := releases[i := releases[i].(active := false)];
        }
      }
      assert releases == Archived(before, p.archived);
      releases := releases + [p.release];
      if !UniqueActive(releases) {
        releases := before;
        return Conflict;
      }
      evidence := evidence + [p.evidence];
      outcome := Committed;
    }

    method GetVersionByLabel(project: Id, templateRef: string, tag: string, environment: string)
      returns (version: Option<Id>)
      ensures version == Lookup(Abstract(), project, templateRef, tag, environment, |releases|)
    {
      hide NormalizePart, VersionServes;
      var n: nat := |releases|;
      while n > 0
        invariant n <= |releases|
        invariant Lookup(Abstract(), project, templateRef, tag, environment, |releases|) ==
                  Lookup(Abstract(), project, templateRef, tag, environment, n)
      {
        var r := releases[n - 1];
        var serves := VersionActive(r.version, project, templateRef);
        if r.key.project == project && r.templateRef == templateRef && r.active && serves
          && r.key.tag == NormalizePart(tag) && r.key.environment == NormalizePart(environment) {
          return Some(r.version);
        }
        n := n - 1;
      }
      version := None;
    }
  }

  lemma GateEvidence(s: State, project: Id, evalRun: Option<Id>, protected: bool)
    requires GateOpen(s, project, evalRun, protected)
    ensures protected ==> evalRun.Some? && evalRun.value in s.evalRuns && GatePasses(s.evalRuns[evalRun.value])
  {}

  // --- Runs ----------------------------------------------------------------------------------------------------

  datatype Step =
    | BeginStep(request: PublishRequest)
    | CommitStep(ticket: Id)
    | AddTemplate(project: Id, ref: string)
    | AddVersion(template: Id, version: string)
    | SetTemplate(template: Id, active: bool)
    | SetVersion(id: Id, active: bool)
    | SetEvalRun(id: Id, run: EvalRun)

  predicate TemplateTaken(s: State, project: Id, ref: string) {
    exists i | 0 <= i < |s.templates| :: s.templates[i].project == project && s.templates[i].ref == ref
  }

  predicate VersionTaken(s: State, template: Id, version: string) {
    exists i | 0 <= i < |s.versions| :: s.versions[i].template == template && s.versions[i].version == version
  }

  function Next(s: State, step: Step): (State, Outcome) {
    match step
    case BeginStep(request) => Begin(s, request)
    case CommitStep(ticket) => Commit(s, ticket)
    case AddTemplate(project, ref) =>
      (if TemplateTaken(s, project, ref) then
       s else s.(templates := s.templates + [Template(project, ref, true)]), Changed)
    case AddVersion(template, version) =>
      (if template >= |s.templates| || !s.templates[template].active || VersionTaken(s, template, version) then s
       else s.(versions := s.versions + [Version(s.templates[template].project, template, version, true)]), Changed)
    case SetTemplate(template, active) =>
      (if template >= |s.templates| then s
       else s.(templates := s.templates[template := s.templates[template].(active := active)]), Changed)
    case SetVersion(version, active) =>
      (if version >= |s.versions| then s
       else s.(versions := s.versions[version := s.versions[version].(active := active)]), Changed)
    case SetEvalRun(id, run) => (s.(evalRuns := s.evalRuns[id := run]), Changed)
  }

  function Run(s: State, steps: seq<Step>): State
    decreases |steps|
  {
    if steps == [] then s else Run(Next(s, steps[0]).0, steps[1..])
  }

  const EMPTY := State([], [], map[], [], [], map[], 0)

  // --- The invariant ---------------------------------------------------------------------------------------------

  /** No later release of the first n has this key. */
  predicate LastBefore(releases: seq<Release>, key: ReleaseKey, i: nat, n: nat)
    requires n <= |releases|
  {
    i < n && releases[i].key == key && forall j | i < j < n :: releases[j].key != key
  }

  /** Active is exactly: the last committed release of its key. */
  ghost predicate ActiveIsLast(releases: seq<Release>) {
    forall i | 0 <= i < |releases| :: releases[i].active <==> LastBefore(releases, releases[i].key, i, |releases|)
  }

  predicate ReleaseOk(s: State, r: Release) {
    && r.key.template < |s.templates|
    && s.templates[r.key.template].project == r.key.project && s.templates[r.key.template].ref == r.templateRef
    && r.version < |s.versions|
    && s.versions[r.version].template == r.key.template && s.versions[r.version].project == r.key.project
    && r.protected == IsProtected(r.key.tag)
  }

  predicate EvidenceOk(r: Release, evidence: Option<EvalRun>) {
    r.protected ==>
      && r.evalRun.Some? && r.gatePassed && evidence.Some?
      && evidence.value.project == r.key.project && GatePasses(evidence.value)
  }

  ghost predicate PendingOk(s: State, p: Pending) {
    && p.begun <= |s.releases| && p.release.active
    && (forall i: nat :: i in p.archived <==> LastBefore(s.releases, p.release.key, i, p.begun))
    && ReleaseOk(s, p.release) && EvidenceOk(p.release, p.evidence)
  }

  ghost predicate Inv(s: State) {
    && (forall i, j | 0 <= i < j < |s.templates| ::
        !(s.templates[i].project == s.templates[j].project && s.templates[i].ref == s.templates[j].ref))
    && ActiveIsLast(s.releases)
    && |s.evidence| == |s.releases|
    && (forall i | 0 <= i < |s.releases| :: ReleaseOk(s, s.releases[i]) && EvidenceOk(s.releases[i], s.evidence[i]))
    && (forall id | id in s.pending :: PendingOk(s, s.pending[id]))
  }

  /** In the tables a publisher reads, the active releases of a key are its last one. */
  lemma {:induction false} ActiveOfIsLast(releases: seq<Release>, key: ReleaseKey)
    requires ActiveIsLast(releases)
    ensures forall i: nat :: i in ActiveOf(releases, key, |releases|) <==> LastBefore(releases, key, i, |releases|)
  {
    forall i: nat
      ensures i in ActiveOf(releases, key, |releases|) <==> LastBefore(releases, key, i, |releases|)
    {
      if i < |releases| && releases[i].key == key {
        assert releases[i].active <==> LastBefore(releases, releases[i].key, i, |releases|);
      }
    }
  }

  lemma {:induction false} PendingFrame(s: State, s': State, p: Pending)
    requires s'.templates == s.templates && s'.versions == s.versions && s'.releases == s.releases
    ensures PendingOk(s', p) == PendingOk(s, p)
  {
    hide LastBefore, EvidenceOk;
  }

  lemma {:induction false} BegunOk(s: State, request: PublishRequest)
    requires Inv(s) && Begin(s, request).1.Begun?
    ensures var s' := Begin(s, request).0; s.nextTicket in s'.pending && PendingOk(s', s'.pending[s.nextTicket])
  {
    hide NormalizePart, FindVersion, LastBefore, ActiveOf, ActiveIsLast, IsProtected;
    var p := Begin(s, request).0.pending[s.nextTicket];
    ActiveOfIsLast(s.releases, p.release.key);
  }

  lemma {:induction false} BegunRows(s: State, request: PublishRequest)
    ensures var (s', outcome) := Begin(s, request);
            if outcome.Begun?
            then s'.pending.Keys == s.pending.Keys + {s.nextTicket}
                 && (forall id | id in s.pending && id != s.nextTicket :: s'.pending[id] == s.pending[id])
                 && s' == s.(pending := s'.pending, nextTicket := s.nextTicket + 1)
            else s' == s
  {
    hide NormalizePart, FindVersion, ActiveOf, IsProtected, GateOpen;
  }

  lemma {:induction false} BeginKeeps(s: State, request: PublishRequest)
    requires Inv(s)
    ensures Inv(Begin(s, request).0)
  {
    hide Begin, LastBefore, EvidenceOk, PendingOk, ActiveIsLast;
    var (s', outcome) := Begin(s, request);
    BegunRows(s, request);
    if outcome.Begun? {
      BegunOk(s, request);
      forall id | id in s'.pending
        ensures PendingOk(s', s'.pending[id])
      {
        if id != s.nextTicket {
          PendingFrame(s, s', s.pending[id]);
        }
      }
    }
  }

  ghost predicate Overtaken(s: State, p: Pending) {
    exists i :: p.begun <= i < |s.releases| && s.releases[i].key == p.release.key
  }

  function Written(s: State, p: Pending): seq<Release> { Archived(s.releases, p.archived) + [p.release] }

  lemma {:induction false} OvertakenConflicts(s: State, p: Pending)
    requires ActiveIsLast(s.releases) && PendingOk(s, p) && Overtaken(s, p)
    ensures !UniqueActive(Written(s, p))
  {
    hide ReleaseOk, EvidenceOk;
    var i :| p.begun <= i < |s.releases| && s.releases[i].key == p.release.key;
    var last := LastOf(s.releases, p.release.key, i);
    assert s.releases[last].active && last !in p.archived;
    var written := Written(s, p);
    assert written[last].active && written[|s.releases|].active && written[last].key == written[|s.releases|].key;
  }

  lemma {:induction false} OthersCommit(s: State, p: Pending)
    requires ActiveIsLast(s.releases) && PendingOk(s, p) && !Overtaken(s, p)
    ensures UniqueActive(Written(s, p))
  {
    hide ReleaseOk, EvidenceOk;
    var n := |s.releases|;
    forall i: nat | i < n && s.releases[i].active && s.releases[i].key == p.release.key
      ensures i in p.archived
    {
      assert LastBefore(s.releases, s.releases[i].key, i, n);
      assert LastBefore(s.releases, p.release.key, i, p.begun);
    }
    forall i, j | 0 <= i < j < n && s.releases[i].active
      ensures s.releases[j].key != s.releases[i].key
    {
      assert LastBefore(s.releases, s.releases[i].key, i, n);
    }
    hide Overtaken, ActiveIsLast, PendingOk;
  }

  /** A commit is refused exactly when another release of the same key was committed since the publisher read. */
  lemma {:induction false} ConflictIff(s: State, ticket: Id)
    requires Inv(s) && ticket in s.pending
    ensures Commit(s, ticket).1 == Conflict <==> Overtaken(s, s.pending[ticket])
    ensures Commit(s, ticket).1 == Conflict ==> Commit(s, ticket).0 == s.(pending := s.pending - {ticket})
  {
    hide PendingOk, ActiveIsLast, ReleaseOk, EvidenceOk, UniqueActive, Archived, Overtaken;
    var p := s.pending[ticket];
    if Overtaken(s, p) {
      OvertakenConflicts(s, p);
    } else {
      OthersCommit(s, p);
    }
    assert Commit(s, ticket).1 == Conflict ==> Commit(s, ticket).0.pending == s.pending - {ticket};
  }

  lemma {:induction false} LastOf(releases: seq<Release>, key: ReleaseKey, i: nat) returns (last: nat)
    requires i < |releases| && releases[i].key == key
    ensures i <= last < |releases| && LastBefore(releases, key, last, |releases|)
    decreases |releases| - i
  {
    if exists j :: i < j < |releases| && releases[j].key == key {
      var j :| i < j < |releases| && releases[j].key == key;
      last := LastOf(releases, key, j);
    } else {
      last := i;
    }
  }

  lemma {:induction false} CommitKeeps(s: State, ticket: Id)
    requires Inv(s)
    ensures Inv(Commit(s, ticket).0)
  {
    hide Commit, Inv, Overtaken;
    if ticket in s.pending {
      ConflictIff(s, ticket);
      CommitOutcomes(s, ticket);
      if Commit(s, ticket).1 == Committed {
        CommittedKeeps(s, ticket);
      } else {
        DroppedKeeps(s, ticket);
      }
    } else {
      NoTicketKeeps(s, ticket);
    }
  }

  lemma NoTicketKeeps(s: State, ticket: Id)
    requires ticket !in s.pending
    ensures Commit(s, ticket).0 == s
  {}

  lemma {:induction false} DroppedKeeps(s: State, ticket: Id)
    requires Inv(s)
    ensures Inv(s.(pending := s.pending - {ticket}))
  {
    hide ActiveIsLast, PendingOk, LastBefore, ReleaseOk, EvidenceOk;
    var s' := s.(pending := s.pending - {ticket});
    forall id | id in s'.pending
      ensures PendingOk(s', s'.pending[id])
    {
      SamePending(s, s', s.pending[id]);
    }
    SameRows(s, s');
  }

  lemma {:induction false} CommittedKeeps(s: State, ticket: Id)
    requires Inv(s) && ticket in s.pending && Commit(s, ticket).1 == Committed && !Overtaken(s, s.pending[ticket])
    ensures Inv(Commit(s, ticket).0)
  {
    hide ActiveIsLast, PendingOk, LastBefore, ReleaseOk, EvidenceOk, UniqueActive, Archived, Overtaken;
    NotOvertaken(s, s.pending[ticket]);
    CommittedIsLast(s, ticket);
    CommittedPending(s, ticket);
    CommittedRows(s, ticket);
  }

  lemma CommitOutcomes(s: State, ticket: Id)
    requires ticket in s.pending
    ensures Commit(s, ticket).1 == Committed || Commit(s, ticket).1 == Conflict
  {
    hide UniqueActive;
  }

  lemma NotOvertaken(s: State, p: Pending)
    requires !Overtaken(s, p)
    ensures forall i | p.begun <= i < |s.releases| :: s.releases[i].key != p.release.key
  {}

  lemma SameRows(a: State, b: State)
    requires b == a.(pending := b.pending)
    ensures forall r :: ReleaseOk(a, r) <==> ReleaseOk(b, r)
  {}

  lemma CommittedRows(s: State, ticket: Id)
    requires Inv(s) && ticket in s.pending && Commit(s, ticket).1 == Committed
    ensures var s' := Commit(s, ticket).0;
            |s'.evidence| == |s'.releases|
            && forall i | 0 <= i < |s'.releases| ::
               ReleaseOk(s', s'.releases[i]) && EvidenceOk(s'.releases[i], s'.evidence[i])
  {
    hide UniqueActive, LastBefore, ActiveIsLast;
    var s', p := Commit(s, ticket).0, s.pending[ticket];
    KeysKept(s, ticket);
    PendingFacts(s, p);
    hide PendingOk, Archived;
    forall i | 0 <= i < |s'.releases|
      ensures ReleaseOk(s', s'.releases[i]) && EvidenceOk(s'.releases[i], s'.evidence[i])
    {
      assert i < |s.releases| ==> ReleaseOk(s, s.releases[i]) && EvidenceOk(s.releases[i], s.evidence[i]);
    }
  }

  lemma PendingFacts(s: State, p: Pending)
    requires PendingOk(s, p)
    ensures ReleaseOk(s, p.release) && EvidenceOk(p.release, p.evidence)
  {}

  lemma SamePending(a: State, b: State, p: Pending)
    requires PendingOk(a, p) && b == a.(pending := b.pending)
    ensures PendingOk(b, p)
  {}

  lemma {:induction false} CommittedIsLast(s: State, ticket: Id)
    requires Inv(s) && ticket in s.pending && Commit(s, ticket).1 == Committed
    requires forall i | s.pending[ticket].begun <= i < |s.releases| ::
             s.releases[i].key != s.pending[ticket].release.key
    ensures ActiveIsLast(Commit(s, ticket).0.releases)
  {
    var p := s.pending[ticket];
    var n := |s.releases|;
    var written := Commit(s, ticket).0.releases;
    assert PendingOk(s, p);
    forall i | 0 <= i < |written|
      ensures written[i].active <==> LastBefore(written, written[i].key, i, |written|)
    {
      if i < n {
        assert s.releases[i].active <==> LastBefore(s.releases, s.releases[i].key, i, n);
        KeysKept(s, ticket);
        if written[i].key == p.release.key {
          assert written[n].key == p.release.key;
          assert LastBefore(s.releases, p.release.key, i, n) <==> LastBefore(s.releases, p.release.key, i, p.begun);
        } else {
          assert LastBefore(written, written[i].key, i, |written|) <==> LastBefore(s.releases, s.releases[i].key, i, n);
        }
      }
    }
  }

  lemma KeysKept(s: State, ticket: Id)
    requires ticket in s.pending && Commit(s, ticket).1 == Committed
    ensures var written := Commit(s, ticket).0.releases;
            && |written| == |s.releases| + 1
            && written[|s.releases|] == s.pending[ticket].release
            && forall i | 0 <= i < |s.releases| :: written[i] == s.releases[i].(active := written[i].active)
  {}

  lemma {:induction false} CommittedPending(s: State, ticket: Id)
    requires Inv(s) && ticket in s.pending && Commit(s, ticket).1 == Committed
    ensures forall id | id in Commit(s, ticket).0.pending ::
            PendingOk(Commit(s, ticket).0, Commit(s, ticket).0.pending[id])
  {
    KeysKept(s, ticket);
    var s' := Commit(s, ticket).0;
    forall id | id in s'.pending
      ensures PendingOk(s', s'.pending[id])
    {
      var p := s.pending[id];
      assert PendingOk(s, p);
      forall i: nat
        ensures LastBefore(s'.releases, p.release.key, i, p.begun) <==>
                LastBefore(s.releases, p.release.key, i, p.begun)
      {}
    }
  }

  /** Template and version rows keep everything but their status. */
  ghost predicate RowsKept(a: State, b: State) {
    && |a.templates| <= |b.templates| && |a.versions| <= |b.versions|
    && (forall i | 0 <= i < |a.templates| :: b.templates[i] == a.templates[i].(active := b.templates[i].active))
    && (forall i | 0 <= i < |a.versions| :: b.versions[i] == a.versions[i].(active := b.versions[i].active))
  }

  lemma {:induction false} RowsKeep(a: State, b: State)
    requires Inv(a) && RowsKept(a, b)
    requires b == a.(templates := b.templates, versions := b.versions, evalRuns := b.evalRuns)
    requires forall i, j | 0 <= i < j < |b.templates| ::
             !(b.templates[i].project == b.templates[j].project && b.templates[i].ref == b.templates[j].ref)
    ensures Inv(b)
  {
    hide EvidenceOk, LastBefore, ActiveIsLast;
    forall i | 0 <= i < |b.releases|
      ensures ReleaseOk(b, b.releases[i])
    {
      assert ReleaseOk(a, a.releases[i]);
    }
    forall id | id in b.pending
      ensures PendingOk(b, b.pending[id])
    {
      assert PendingOk(a, a.pending[id]);
    }
  }

  lemma {:induction false} StepKeepsInv(s: State, step: Step)
    requires Inv(s)
    ensures Inv(Next(s, step).0)
  {
    hide Begin, Commit, ActiveIsLast, ReleaseOk, EvidenceOk, PendingOk;
    match step {
      case BeginStep(request) => BeginKeeps(s, request);
      case CommitStep(ticket) => CommitKeeps(s, ticket);
      case AddTemplate(project, ref) => RowsKeep(s, Next(s, step).0);
      case AddVersion(template, version) => RowsKeep(s, Next(s, step).0);
      case SetTemplate(template, active) => RowsKeep(s, Next(s, step).0);
      case SetVersion(version, active) => RowsKeep(s, Next(s, step).0);
      case SetEvalRun(id, run) => RowsKeep(s, Next(s, step).0);
    }
  }

  lemma {:induction false} RunKeepsInv(s: State, steps: seq<Step>)
    requires Inv(s)
    ensures Inv(Run(s, steps))
    decreases |steps|
  {
    hide Inv, Next;
    if steps != [] {
      StepKeepsInv(s, steps[0]);
      RunKeepsInv(Next(s, steps[0]).0, steps[1..]);
    }
  }

  lemma {:induction false} ReachableInv(steps: seq<Step>)
    ensures Inv(Run(EMPTY, steps))
  {
    hide Run;
    assert Inv(EMPTY);
    RunKeepsInv(EMPTY, steps);
  }

  // --- What every interleaving guarantees ---------------------------------------------------------------------------

  /** In every committed state at most one release of a key is active: the last one committed. */
  lemma {:induction false} OneActiveRelease(steps: seq<Step>)
    ensures var releases := Run(EMPTY, steps).releases;
            && UniqueActive(releases)
            && forall i | 0 <= i < |releases| ::
                 releases[i].active <==> forall j | i < j < |releases| :: releases[j].key != releases[i].key
  {
    ReachableInv(steps);
    var releases := Run(EMPTY, steps).releases;
    hide Run;
    forall i | 0 <= i < |releases|
      ensures releases[i].active <==> forall j | i < j < |releases| :: releases[j].key != releases[i].key
    {
      assert releases[i].active <==> LastBefore(releases, releases[i].key, i, |releases|);
    }
  }

  /** Every protected release was published on an eval run of its project that passed every threshold when the gate
      read it. */
  lemma {:induction false} ProtectedReleasesPassed(steps: seq<Step>, i: nat)
    requires i < |Run(EMPTY, steps).releases|
    requires Run(EMPTY, steps).releases[i].key.tag in {"production", "staging", "latest"}
    ensures var s := Run(EMPTY, steps);
            && |s.evidence| == |s.releases| && s.releases[i].evalRun.Some? && s.releases[i].gatePassed
            && s.evidence[i].Some?
            && var run := s.evidence[i].value;
               && run.project == s.releases[i].key.project && run.completed && run.caseCount >= 1
               && run.leakageCount <= 0 && run.deletedVisibleCount <= 0
               && run.recallAtK >= 0.8 && run.mrr >= 0.5 && run.contextRecall >= 0.8
  {
    ReachableInv(steps);
    var s := Run(EMPTY, steps);
    hide Run, ActiveIsLast, PendingOk;
    assert ReleaseOk(s, s.releases[i]) && EvidenceOk(s.releases[i], s.evidence[i]);
  }

  /** In every interleaving a commit is refused exactly when another publisher of the same key committed in between,
      and the loser leaves no trace but its own end. */
  lemma {:induction false} LoserIffOvertaken(steps: seq<Step>, ticket: Id)
    requires ticket in Run(EMPTY, steps).pending
    ensures var s := Run(EMPTY, steps);
            var p := s.pending[ticket];
            && (Commit(s, ticket).1 == Conflict <==>
                  exists i :: p.begun <= i < |s.releases| && s.releases[i].key == p.release.key)
            && (Commit(s, ticket).1 == Conflict ==> Commit(s, ticket).0 == s.(pending := s.pending - {ticket}))
  {
    hide Run, Commit;
    ReachableInv(steps);
    ConflictIff(Run(EMPTY, steps), ticket);
  }

  /** Looking up any label and environment with the same normal form returns the version of the last committed
      release of the key, as long as that version and its template are active, and nothing otherwise. */
  lemma {:induction false} LookupReturnsLast(steps: seq<Step>, last: nat, tag: string, environment: string)
    requires last < |Run(EMPTY, steps).releases|
    requires var releases := Run(EMPTY, steps).releases;
             LastBefore(releases, releases[last].key, last, |releases|)
             && NormalizePart(tag) == releases[last].key.tag
                && NormalizePart(environment) == releases[last].key.environment
    ensures var s := Run(EMPTY, steps);
            var r := s.releases[last];
            Lookup(s, r.key.project, r.templateRef, tag, environment, |s.releases|) ==
            if StillActive(s, r) then Some(r.version) else None
  {
    ReachableInv(steps);
    hide Run;
    LookupOfKey(Run(EMPTY, steps), last, tag, environment);
  }

  predicate StillActive(s: State, r: Release) {
    && r.version < |s.versions| && s.versions[r.version].active
    && r.key.template < |s.templates| && s.templates[r.key.template].active
  }

  lemma {:induction false} LookupOfKey(s: State, last: nat, tag: string, environment: string)
    requires Inv(s) && last < |s.releases|
    requires LastBefore(s.releases, s.releases[last].key, last, |s.releases|)
    requires NormalizePart(tag) == s.releases[last].key.tag
             && NormalizePart(environment) == s.releases[last].key.environment
    ensures var r := s.releases[last];
            Lookup(s, r.key.project, r.templateRef, tag, environment, |s.releases|) ==
            if StillActive(s, r) then Some(r.version) else None
  {
    hide NormalizePart, PendingOk, EvidenceOk, Lookup;
    var r := s.releases[last];
    assert ReleaseOk(s, r);
    assert r.active <==> LastBefore(s.releases, r.key, last, |s.releases|);
    assert ReleaseServes(s, last, r.key.project, r.templateRef, tag, environment) <==> StillActive(s, r);
    forall i | 0 <= i < |s.releases| && ReleaseServes(s, i, r.key.project, r.templateRef, tag, environment)
      ensures i == last
    {
      SameKey(s, i, last, tag, environment);
      assert LastBefore(s.releases, s.releases[i].key, i, |s.releases|);
    }
    hide ReleaseServes, Inv, LastBefore, StillActive, ReleaseOk;
    LookupUnique(s, r.key.project, r.templateRef, tag, environment, |s.releases|, last);
  }

  lemma {:induction false} LookupUnique(
    s: State, project: Id, templateRef: string, tag: string, environment: string, n: nat, last: nat)
    requires last < n <= |s.releases|
    requires forall i | 0 <= i < n && ReleaseServes(s, i, project, templateRef, tag, environment) :: i == last
    ensures Lookup(s, project, templateRef, tag, environment, n) ==
            if ReleaseServes(s, last, project, templateRef, tag, environment) then
               Some(s.releases[last].version) else None
  {
    hide ReleaseServes;
    if last < n - 1 {
      LookupUnique(s, project, templateRef, tag, environment, n - 1, last);
    } else {
      LookupNothing(s, project, templateRef, tag, environment, last);
    }
  }

  lemma {:induction false} LookupNothing(
    s: State, project: Id, templateRef: string, tag: string, environment: string, n: nat)
    requires n <= |s.releases|
    requires forall i | 0 <= i < n :: !ReleaseServes(s, i, project, templateRef, tag, environment)
    ensures Lookup(s, project, templateRef, tag, environment, n) == None
  {
    hide ReleaseServes;
    if n > 0 {
      LookupNothing(s, project, templateRef, tag, environment, n - 1);
    }
  }

  /** A serving release of the same normal form has the same key, because a template reference names one template. */
  lemma SameKey(s: State, i: nat, last: nat, tag: string, environment: string)
    requires Inv(s) && i < |s.releases| && last < |s.releases|
    requires ReleaseServes(s, i, s.releases[last].key.project, s.releases[last].templateRef, tag, environment)
    requires NormalizePart(tag) == s.releases[last].key.tag
             && NormalizePart(environment) == s.releases[last].key.environment
    ensures s.releases[i].key == s.releases[last].key
  {
    hide NormalizePart, PendingOk, EvidenceOk, ActiveIsLast;
    assert ReleaseOk(s, s.releases[i]) && ReleaseOk(s, s.releases[last]);
  }
}
