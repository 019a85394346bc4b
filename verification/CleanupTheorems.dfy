/** What a cleanup run means: exact accounting, no lost update, and only expired artifacts go. */
module CleanupTheorems {
  import opened Common
  import opened ArtifactCleanup

  type Target = (Id, string)

  function TargetOf(c: Candidate): Target { (c.admission, c.key) }

  function Targets(cs: seq<Candidate>): seq<Target> {
    if cs == [] then [] else Targets(cs[..|cs| - 1]) + [TargetOf(cs[|cs| - 1])]
  }

  predicate DistinctTargets(cs: seq<Candidate>) {
    forall i, j | 0 <= i < j < |cs| :: TargetOf(cs[i]) != TargetOf(cs[j])
  }

  /** The descriptor under a key, when there is one. */
  predicate HasDescriptor(a: Admission, key: string) { key in a.evidence && a.evidence[key].Dict? }

  // --- The candidates of a table ------------------------------------------------

  predicate IsCandidate(a: Admission, key: string, now: int) {
    && HasDescriptor(a, key)
    && (var d := a.evidence[key].d;
        d.status != Deleted && d.ref.Some? && d.sha.Some? && d.expires.Some? && d.expires.value <= now)
  }

  /** `c` copies the descriptor under its key; a status other than pending or failed is shown as pending. */
  predicate Copies(a: Admission, c: Candidate)
    requires HasDescriptor(a, c.key)
  {
    var d := a.evidence[c.key].d;
    && c.admission == a.id && d.ref == Some(c.ref) && d.sha == Some(c.sha) && d.expires == Some(c.expires)
    && c.error == d.error && c.status == (if d.status == DeleteFailed then DeleteFailed else Pending)
  }

  lemma {:induction false} CandidateAtMeans(a: Admission, key: string, kind: Kind, now: int)
    ensures |CandidateAt(a, key, kind, now)| == One(IsCandidate(a, key, now))
    ensures IsCandidate(a, key, now) ==>
              var c := CandidateAt(a, key, kind, now)[0];
              c.key == key && c.kind == kind && Copies(a, c)
  {}

  /** `c` is the candidate of a descriptor of the table that has expired. */
  predicate Expired(admissions: seq<Admission>, c: Candidate, now: int) {
    exists i :: 0 <= i < |admissions| && ExpiredAt(admissions[i], c, now)
  }

  predicate ExpiredAt(a: Admission, c: Candidate, now: int) {
    && IsCandidate(a, c.key, now) && Copies(a, c)
    && ((c.key == "sbom" && c.kind == Sbom) || (c.key == "vulnerabilities" && c.kind == ScanReport))
  }

  lemma {:induction false} CandidatesExpired(admissions: seq<Admission>, now: int)
    ensures forall c | c in Candidates(admissions, now) :: Expired(admissions, c, now)
  {
    if admissions != [] {
      var init, last := admissions[..|admissions| - 1], admissions[|admissions| - 1];
      CandidatesExpired(init, now);
      CandidateAtMeans(last, "sbom", Sbom, now);
      CandidateAtMeans(last, "vulnerabilities", ScanReport, now);
      forall c | c in Candidates(admissions, now)
        ensures Expired(admissions, c, now)
      {
        if c in Candidates(init, now) {
          var i :| 0 <= i < |init| && ExpiredAt(init[i], c, now);
          assert admissions[i] == init[i];
        } else {
          assert c in CandidatesOf(last, now);
          assert ExpiredAt(admissions[|admissions| - 1], c, now);
        }
      }
    }
  }

  /** Candidates come in table order, of one admission the SBOM first. */
  lemma {:induction false} InTableOrder(admissions: seq<Admission>, now: int, i: nat, j: nat) returns (x: nat, y: nat)
    requires i < j < |Candidates(admissions, now)|
    ensures x <= y < |admissions|
    ensures ExpiredAt(admissions[x], Candidates(admissions, now)[i], now)
    ensures ExpiredAt(admissions[y], Candidates(admissions, now)[j], now)
    ensures x == y ==> Candidates(admissions, now)[i].key == "sbom" && Candidates(admissions, now)[j].kind == ScanReport
  {
    hide CandidateAt;
    var n := |admissions| - 1;
    var init, last := admissions[..n], admissions[n];
    var before := Candidates(init, now);
    CandidateAtMeans(last, "sbom", Sbom, now);
    CandidateAtMeans(last, "vulnerabilities", ScanReport, now);
    if j < |before| {
      x, y := InTableOrder(init, now, i, j);
    } else {
      y := n;
      if i < |before| {
        CandidatesExpired(init, now);
        assert before[i] in before;
        x :| 0 <= x < |init| && ExpiredAt(init[x], before[i], now);
      } else {
        x := n;
      }
    }
  }

  lemma {:induction false} DistinctConcat(x: seq<Candidate>, y: seq<Candidate>)
    requires DistinctTargets(x) && DistinctTargets(y)
    requires forall i, j | 0 <= i < |x| && 0 <= j < |y| :: TargetOf(x[i]) != TargetOf(y[j])
    ensures DistinctTargets(x + y)
  {
    hide TargetOf;
  }

  lemma {:induction false} OwnDistinct(a: Admission, now: int)
    ensures DistinctTargets(CandidatesOf(a, now))
    ensures forall c | c in CandidatesOf(a, now) :: c.admission == a.id
  {
    hide CandidateAt, IsCandidate;
    CandidateAtMeans(a, "sbom", Sbom, now);
    CandidateAtMeans(a, "vulnerabilities", ScanReport, now);
  }

  lemma {:induction false} CandidatesDistinct(admissions: seq<Admission>, now: int)
    requires UniqueIds(admissions)
    ensures DistinctTargets(Candidates(admissions, now))
  {
    if admissions != [] {
      hide CandidateAt, Candidates, CandidatesOf, DistinctTargets, IsCandidate;
      var init, last := admissions[..|admissions| - 1], admissions[|admissions| - 1];
      var before, own := Candidates(init, now), CandidatesOf(last, now);
      CandidatesDistinct(init, now);
      CandidatesExpired(init, now);
      OwnDistinct(last, now);
      CandidatesSnoc(admissions, now);
      forall i, j | 0 <= i < |before| && 0 <= j < |own|
        ensures TargetOf(before[i]) != TargetOf(own[j])
      {
        assert Expired(init, before[i], now) && own[j].admission == last.id;
        var x :| 0 <= x < |init| && ExpiredAt(init[x], before[i], now);
        assert init[x].id != last.id;
      }
      DistinctConcat(before, own);
    } else {
      NothingDistinct(now);
    }
  }

  lemma NothingDistinct(now: int)
    ensures DistinctTargets(Candidates([], now))
  {}

  lemma {:induction false} CandidatesSnoc(admissions: seq<Admission>, now: int)
    requires admissions != []
    ensures Candidates(admissions, now) ==
            Candidates(admissions[..|admissions| - 1], now) + CandidatesOf(admissions[|admissions| - 1], now)
  {}

  // --- Every object deleted belonged to an expired descriptor -------------------

  /** Whatever object is gone after a run was the artifact of a descriptor that had expired at its start: an object of
      the project with the kind of its key and the digest on record. */
  lemma {:induction false} OnlyExpiredObjectsGo(
    admissions: seq<Admission>, startedAt: int, limit: nat, project: Id,
    before: map<string, Metadata>, after: map<string, Metadata>, cs: seq<Candidate>, os: seq<Outcome>, ref: string)
    requires cs == Limited(Candidates(admissions, startedAt), limit) && |os| == |cs|
    requires Accounted(project, before, after, cs, os) && ref in before && ref !in after
    ensures exists i, key :: 0 <= i < |admissions| && IsCandidate(admissions[i], key, startedAt)
                             && admissions[i].evidence[key].d.ref == Some(ref)
                             && before[ref].project == project
                             && admissions[i].evidence[key].d.sha == Some(before[ref].sha)
                             && before[ref].kind == if key == "sbom" then Sbom else ScanReport
  {
    var k :| 0 <= k < |cs| && cs[k].ref == ref && Matches(before, cs[k], project);
    CandidatesExpired(admissions, startedAt);
    assert cs[k] in Candidates(admissions, startedAt);
    var i :| 0 <= i < |admissions| && ExpiredAt(admissions[i], cs[k], startedAt);
    assert IsCandidate(admissions[i], cs[k].key, startedAt);
  }

  // --- No update is lost --------------------------------------------------------

  /** The position of the candidate for a target, if it is among the first candidates. */
  ghost predicate Handles(cs: seq<Candidate>, i: nat, target: Target) { i < |cs| && TargetOf(cs[i]) == target }

  lemma {:induction false} NotBefore(cs: seq<Candidate>, n: nat)
    requires n < |cs| && DistinctTargets(cs)
    ensures forall j: nat :: !Handles(cs[..n], j, TargetOf(cs[n]))
  {
    forall j: nat
      ensures !Handles(cs[..n], j, TargetOf(cs[n]))
    {
      if j < n {
        assert TargetOf(cs[j]) != TargetOf(cs[n]);
      }
    }
  }

  /** Each descriptor ends up with exactly the outcome of its own candidate, however many keys of its admission were
      touched. */
  lemma {:induction false} NoLostUpdate(
    a: Admission, cs: seq<Candidate>, os: seq<Outcome>, startedAt: int, key: string)
    requires |os| == |cs| && DistinctTargets(cs) && key in a.evidence
    ensures forall i: nat | Handles(cs, i, (a.id, key)) && a.evidence[key].Dict? ::
              Marked(a.evidence, a.id, cs, os, startedAt)[key] == Dict(Mark(a.evidence[key].d, os[i], startedAt))
    ensures (forall i: nat :: !Handles(cs, i, (a.id, key))) ==>
              Marked(a.evidence, a.id, cs, os, startedAt)[key] == a.evidence[key]
  {
    hide Mark;
    if cs != [] {
      var n := |cs| - 1;
      var init, initOs := cs[..n], os[..n];
      NoLostUpdate(a, init, initOs, startedAt, key);
      assert forall i: nat | i < n :: init[i] == cs[i] && initOs[i] == os[i];
      MarkedKeepsDict(a.evidence, a.id, init, initOs, startedAt, key);
      forall i: nat | Handles(cs, i, (a.id, key)) && a.evidence[key].Dict?
        ensures Marked(a.evidence, a.id, cs, os, startedAt)[key] == Dict(Mark(a.evidence[key].d, os[i], startedAt))
      {
        if i < n {
          assert Handles(init, i, (a.id, key));
          assert TargetOf(cs[n]) != (a.id, key);
        } else {
          NotBefore(cs, n);
        }
      }
      if forall i: nat :: !Handles(cs, i, (a.id, key)) {
        assert !Handles(cs, n, (a.id, key));
        forall j: nat
          ensures !Handles(init, j, (a.id, key))
        {
          assert !Handles(cs, j, (a.id, key));
        }
      }
    }
  }

  /** The targets whose object was deleted. */
  ghost predicate WasDeleted(cs: seq<Candidate>, os: seq<Outcome>, target: Target)
    requires |os| == |cs|
  {
    exists i: nat :: Handles(cs, i, target) && os[i].DeletedNow?
  }

  /** A run leaves the reference, digest and expiry of every descriptor alone, marks as deleted, at its start, just the
      deleted ones, and records the error of the failed ones. */
  lemma {:induction false} DescriptorAfter(
    a: Admission, cs: seq<Candidate>, os: seq<Outcome>, startedAt: int, key: string)
    requires |os| == |cs| && DistinctTargets(cs) && HasDescriptor(a, key)
    requires (exists i: nat :: Handles(cs, i, (a.id, key))) ==> a.evidence[key].d.status != Deleted
    ensures var m := Marked(a.evidence, a.id, cs, os, startedAt);
            && key in m && m[key].Dict?
            && m[key].d.ref == a.evidence[key].d.ref && m[key].d.sha == a.evidence[key].d.sha
            && m[key].d.expires == a.evidence[key].d.expires
            && (m[key].d.status == Deleted <==>
                  a.evidence[key].d.status == Deleted || WasDeleted(cs, os, (a.id, key)))
            && (WasDeleted(cs, os, (a.id, key)) ==> m[key].d.deletedAt == Some(startedAt) && m[key].d.error == "")
            && (forall i: nat | Handles(cs, i, (a.id, key)) && os[i].FailedWith? ::
                  m[key].d == a.evidence[key].d.(status := DeleteFailed, error := os[i].error))
  {
    hide Marked;
    NoLostUpdate(a, cs, os, startedAt, key);
    if i: nat :| Handles(cs, i, (a.id, key)) {
      assert forall j: nat | Handles(cs, j, (a.id, key)) :: j == i by {
        forall j: nat | Handles(cs, j, (a.id, key))
          ensures j == i
        {
          assert TargetOf(cs[j]) == TargetOf(cs[i]);
        }
      }
    }
  }

  // --- The candidates afterwards ------------------------------------------------

  /** The targets that were not deleted, in the same order. */
  ghost function Surviving(targets: seq<Target>, cs: seq<Candidate>, os: seq<Outcome>): seq<Target>
    requires |os| == |cs|
  {
    if targets == [] then []
    else
      var init, last := targets[..|targets| - 1], targets[|targets| - 1];
      Surviving(init, cs, os) + if WasDeleted(cs, os, last) then [] else [last]
  }

  lemma {:induction false} SurvivingConcat(x: seq<Target>, y: seq<Target>, cs: seq<Candidate>, os: seq<Outcome>)
    requires |os| == |cs|
    ensures Surviving(x + y, cs, os) == Surviving(x, cs, os) + Surviving(y, cs, os)
    decreases |y|
  {
    if y == [] {
      assert x + y == x;
    } else {
      var init := y[..|y| - 1];
      assert (x + y)[..|x + y| - 1] == x + init;
      SurvivingConcat(x, init, cs, os);
    }
  }

  lemma {:induction false} TargetsConcat(x: seq<Candidate>, y: seq<Candidate>)
    ensures Targets(x + y) == Targets(x) + Targets(y)
    decreases |y|
  {
    if y == [] {
      assert x + y == x;
    } else {
      assert (x + y)[..|x + y| - 1] == x + y[..|y| - 1];
      TargetsConcat(x, y[..|y| - 1]);
    }
  }

  /** Candidates handled by a run are candidates of the table it started from. */
  ghost predicate FromTable(a: Admission, cs: seq<Candidate>, now: int) {
    forall i: nat, key | Handles(cs, i, (a.id, key)) :: IsCandidate(a, key, now)
  }

  /** A descriptor is a candidate after the run exactly when it was one before and was not deleted. */
  lemma {:induction false} CandidateAfter(
    a: Admission, a': Admission, key: string, cs: seq<Candidate>, os: seq<Outcome>, now: int)
    requires |os| == |cs| && DistinctTargets(cs) && FromTable(a, cs, now)
    requires a' == a.(evidence := Marked(a.evidence, a.id, cs, os, now))
    ensures IsCandidate(a', key, now) <==> IsCandidate(a, key, now) && !WasDeleted(cs, os, (a.id, key))
  {
    hide Marked, WasDeleted;
    if HasDescriptor(a, key) {
      assert forall i: nat | Handles(cs, i, (a.id, key)) :: IsCandidate(a, key, now);
      DescriptorAfter(a, cs, os, now, key);
    } else if key in a.evidence {
      MarkedKeepsDict(a.evidence, a.id, cs, os, now, key);
    }
  }

  lemma {:induction false} SurvivingAt(
    a: Admission, a': Admission, key: string, kind: Kind, cs: seq<Candidate>, os: seq<Outcome>, now: int)
    requires |os| == |cs| && DistinctTargets(cs) && FromTable(a, cs, now)
    requires a' == a.(evidence := Marked(a.evidence, a.id, cs, os, now))
    ensures Targets(CandidateAt(a', key, kind, now)) == Surviving(Targets(CandidateAt(a, key, kind, now)), cs, os)
  {
    hide Marked, WasDeleted, IsCandidate, CandidateAt, Surviving, Targets, FromTable, DistinctTargets;
    CandidateAfter(a, a', key, cs, os, now);
    CandidateAtMeans(a, key, kind, now);
    CandidateAtMeans(a', key, kind, now);
    OneTarget(CandidateAt(a, key, kind, now), cs, os);
    OneTarget(CandidateAt(a', key, kind, now), cs, os);
  }

  lemma {:induction false} OneTarget(x: seq<Candidate>, cs: seq<Candidate>, os: seq<Outcome>)
    requires |x| <= 1 && |os| == |cs|
    ensures x == [] ==> Targets(x) == [] && Surviving(Targets(x), cs, os) == []
    ensures |x| == 1 ==> Targets(x) == [TargetOf(x[0])]
    ensures |x| == 1 ==>
              Surviving(Targets(x), cs, os) == if WasDeleted(cs, os, TargetOf(x[0])) then [] else [TargetOf(x[0])]
  {
    if |x| == 1 {
      assert x[..0] == [];
      var ts: seq<Target> := [TargetOf(x[0])];
      assert ts[..0] == [];
      assert Surviving(ts, cs, os) == Surviving(ts[..0], cs, os) + if WasDeleted(cs, os, ts[0]) then [] else [ts[0]];
    }
  }

  lemma {:induction false} SurvivingTargets(
    admissions: seq<Admission>, cs: seq<Candidate>, os: seq<Outcome>, now: int)
    requires |os| == |cs| && DistinctTargets(cs)
    requires forall j | 0 <= j < |admissions| :: FromTable(admissions[j], cs, now)
    ensures Targets(Candidates(MarkAll(admissions, cs, os, now), now)) ==
            Surviving(Targets(Candidates(admissions, now)), cs, os)
  {
    hide CandidateAt, Marked;
    var marked := MarkAll(admissions, cs, os, now);
    if admissions != [] {
      var init, a := admissions[..|admissions| - 1], admissions[|admissions| - 1];
      var a' := marked[|admissions| - 1];
      assert marked[..|admissions| - 1] == MarkAll(init, cs, os, now);
      SurvivingTargets(init, cs, os, now);
      SurvivingAt(a, a', "sbom", Sbom, cs, os, now);
      SurvivingAt(a, a', "vulnerabilities", ScanReport, cs, os, now);
      hide Candidates;
      CandidatesSnoc(admissions, now);
      CandidatesSnoc(marked, now);
      TargetsConcat(Candidates(init, now), CandidatesOf(a, now));
      TargetsConcat(Candidates(MarkAll(init, cs, os, now), now), CandidatesOf(a', now));
      TargetsConcat(CandidateAt(a, "sbom", Sbom, now), CandidateAt(a, "vulnerabilities", ScanReport, now));
      TargetsConcat(CandidateAt(a', "sbom", Sbom, now), CandidateAt(a', "vulnerabilities", ScanReport, now));
      SurvivingConcat(Targets(Candidates(init, now)), Targets(CandidatesOf(a, now)), cs, os);
      SurvivingConcat(Targets(CandidateAt(a, "sbom", Sbom, now)),
                      Targets(CandidateAt(a, "vulnerabilities", ScanReport, now)), cs, os);
    }
  }

  lemma {:induction false} RunFromTable(admissions: seq<Admission>, now: int, limit: nat, j: nat)
    requires UniqueIds(admissions) && j < |admissions|
    ensures FromTable(admissions[j], Limited(Candidates(admissions, now), limit), now)
  {
    CandidatesExpired(admissions, now);
    var all := Candidates(admissions, now);
    var cs := Limited(all, limit);
    forall i: nat, key | Handles(cs, i, (admissions[j].id, key))
      ensures IsCandidate(admissions[j], key, now)
    {
      assert cs[i] == all[i] && all[i] in all;
      var x :| 0 <= x < |admissions| && ExpiredAt(admissions[x], cs[i], now);
      assert x == j;
    }
  }

  lemma {:induction false} LimitedDistinct(cs: seq<Candidate>, limit: nat)
    requires DistinctTargets(cs)
    ensures DistinctTargets(Limited(cs, limit))
  {}

  /** At the run's own clock, the candidates afterwards are the candidates before without the deleted ones, in the
      same order. */
  lemma {:induction false} CandidatesAfter(
    admissions: seq<Admission>, now: int, limit: nat, cs: seq<Candidate>, os: seq<Outcome>)
    requires UniqueIds(admissions) && cs == Limited(Candidates(admissions, now), limit) && |os| == |cs|
    ensures Targets(Candidates(MarkAll(admissions, cs, os, now), now)) ==
            Surviving(Targets(Candidates(admissions, now)), cs, os)
  {
    hide Candidates, MarkAll;
    CandidatesDistinct(admissions, now);
    LimitedDistinct(Candidates(admissions, now), limit);
    forall j | 0 <= j < |admissions|
      ensures FromTable(admissions[j], cs, now)
    {
      RunFromTable(admissions, now, limit, j);
    }
    SurvivingTargets(admissions, cs, os, now);
  }

  // --- The count of deleted artifacts -------------------------------------------

  function StatusIn(a: Admission, status: CleanupStatus): nat {
    One(StatusAt(a, "sbom", status)) + One(StatusAt(a, "vulnerabilities", status))
  }

  lemma {:induction false} StatusCountUpdate(
    admissions: seq<Admission>, updated: seq<Admission>, status: CleanupStatus, j: nat)
    requires |updated| == |admissions| && j < |admissions|
    requires forall i | 0 <= i < |admissions| && i != j :: updated[i] == admissions[i]
    ensures StatusCount(updated, status) + StatusIn(admissions[j], status) ==
            StatusCount(admissions, status) + StatusIn(updated[j], status)
  {
    var n := |admissions| - 1;
    if j == n {
      assert updated[..n] == admissions[..n];
    } else {
      StatusCountUpdate(admissions[..n], updated[..n], status, j);
    }
  }

  lemma {:induction false} CountNext(
    admissions: seq<Admission>, cs: seq<Candidate>, os: seq<Outcome>, now: int, j: nat)
    requires UniqueIds(admissions) && cs != [] && |os| == |cs| && DistinctTargets(cs) && j < |admissions|
    requires ExpiredAt(admissions[j], cs[|cs| - 1], now)
    requires forall k | 0 <= k < |admissions| :: FromTable(admissions[k], cs, now)
    ensures StatusCount(MarkAll(admissions, cs, os, now), Deleted) ==
            StatusCount(MarkAll(admissions, cs[..|cs| - 1], os[..|cs| - 1], now), Deleted)
            + One(os[|cs| - 1].DeletedNow?)
  {
    hide Marked, StatusCount, StatusIn;
    var n := |cs| - 1;
    var before, after := MarkAll(admissions, cs[..n], os[..n], now), MarkAll(admissions, cs, os, now);
    forall k | 0 <= k < |admissions| && k != j
      ensures after[k] == before[k]
    {
      assert admissions[k].id != cs[n].admission;
      MarkedOthers(admissions[k], cs, os, now);
    }
    StatusCountUpdate(before, after, Deleted, j);
    StatusNext(admissions[j], cs, os, now);
  }

  lemma {:induction false} MarkedOthers(a: Admission, cs: seq<Candidate>, os: seq<Outcome>, now: int)
    requires cs != [] && |os| == |cs| && a.id != cs[|cs| - 1].admission
    ensures Marked(a.evidence, a.id, cs, os, now) == Marked(a.evidence, a.id, cs[..|cs| - 1], os[..|cs| - 1], now)
  {}

  /** The last candidate changes the status under its own key only, to deleted exactly when its object was. */
  lemma {:induction false} StatusNext(a: Admission, cs: seq<Candidate>, os: seq<Outcome>, now: int)
    requires cs != [] && |os| == |cs| && DistinctTargets(cs)
    requires ExpiredAt(a, cs[|cs| - 1], now) && FromTable(a, cs, now)
    ensures StatusIn(a.(evidence := Marked(a.evidence, a.id, cs, os, now)), Deleted) ==
            StatusIn(a.(evidence := Marked(a.evidence, a.id, cs[..|cs| - 1], os[..|cs| - 1], now)), Deleted)
            + One(os[|cs| - 1].DeletedNow?)
  {
    var n := |cs| - 1;
    var init, initOs, key := cs[..n], os[..n], cs[n].key;
    NotBefore(cs, n);
    NoLostUpdate(a, init, initOs, now, key);
    assert Marked(a.evidence, a.id, init, initOs, now)[key] == a.evidence[key];
  }

  /** A real run raises the number of artifacts marked deleted by exactly its deleted count. */
  lemma {:induction false} DeletedCountExact(
    admissions: seq<Admission>, now: int, cs: seq<Candidate>, os: seq<Outcome>)
    requires UniqueIds(admissions) && |os| == |cs| && DistinctTargets(cs)
    requires forall c | c in cs :: Expired(admissions, c, now)
    ensures StatusCount(MarkAll(admissions, cs, os, now), Deleted) ==
            StatusCount(admissions, Deleted) + DeletedIn(os)
    decreases |cs|
  {
    hide MarkAll, StatusCount, ExpiredAt;
    if cs == [] {
      NothingMarked(admissions, now);
    } else {
      var n := |cs| - 1;
      DeletedCountExact(admissions, now, cs[..n], os[..n]);
      assert cs[n] in cs;
      var j :| 0 <= j < |admissions| && ExpiredAt(admissions[j], cs[n], now);
      forall k | 0 <= k < |admissions|
        ensures FromTable(admissions[k], cs, now)
      {
        ExpiredFromTable(admissions, cs, now, k);
      }
      CountNext(admissions, cs, os, now, j);
    }
  }

  lemma {:induction false} ExpiredFromTable(admissions: seq<Admission>, cs: seq<Candidate>, now: int, k: nat)
    requires UniqueIds(admissions) && k < |admissions| && forall c | c in cs :: Expired(admissions, c, now)
    ensures FromTable(admissions[k], cs, now)
  {
    forall i: nat, key | Handles(cs, i, (admissions[k].id, key))
      ensures IsCandidate(admissions[k], key, now)
    {
      assert cs[i] in cs;
      var x :| 0 <= x < |admissions| && ExpiredAt(admissions[x], cs[i], now);
      assert x == k;
    }
  }

  /** The same for the candidates a run takes from the table. */
  lemma {:induction false} RunRaisesDeleted(
    admissions: seq<Admission>, now: int, limit: nat, cs: seq<Candidate>, os: seq<Outcome>)
    requires UniqueIds(admissions) && cs == Limited(Candidates(admissions, now), limit) && |os| == |cs|
    ensures StatusCount(MarkAll(admissions, cs, os, now), Deleted) ==
            StatusCount(admissions, Deleted) + DeletedIn(os)
  {
    hide Candidates, MarkAll, StatusCount, Expired;
    CandidatesDistinct(admissions, now);
    CandidatesExpired(admissions, now);
    LimitedDistinct(Candidates(admissions, now), limit);
    assert forall c | c in cs :: c in Candidates(admissions, now);
    DeletedCountExact(admissions, now, cs, os);
  }

  // --- What a run reports -------------------------------------------------------

  /** The report repeats the candidates with their outcomes. */
  lemma {:induction false} ReportShows(cs: seq<Candidate>, os: seq<Outcome>, i: nat)
    requires |os| == |cs| && i < |cs|
    ensures |Reports(cs, os)| == |cs| && TargetOf(Reports(cs, os)[i]) == TargetOf(cs[i])
    ensures Reports(cs, os)[i].ref == cs[i].ref && Reports(cs, os)[i].sha == cs[i].sha
    ensures Reports(cs, os)[i].kind == cs[i].kind && Reports(cs, os)[i].expires == cs[i].expires
    ensures Reports(cs, os)[i].status == Deleted <==> os[i].DeletedNow?
    ensures os[i].DeletedNow? ==> Reports(cs, os)[i].error == ""
    ensures os[i].FailedWith? ==> Reports(cs, os)[i].status == DeleteFailed && Reports(cs, os)[i].error == os[i].error
  {}

  // --- Retained and candidates over time ----------------------------------------

  /** Not deleted, with a reference and a digest. */
  predicate Tracked(a: Admission, key: string) {
    HasDescriptor(a, key) && a.evidence[key].d.status != Deleted && a.evidence[key].d.ref.Some?
      && a.evidence[key].d.sha.Some?
  }

  predicate TrackedRetained(a: Admission, key: string, now: int) { Tracked(a, key) && RetainedAt(a, key, now) }

  function TrackedCount(admissions: seq<Admission>): nat {
    if admissions == [] then 0
    else
      var a := admissions[|admissions| - 1];
      TrackedCount(admissions[..|admissions| - 1]) + One(Tracked(a, "sbom")) + One(Tracked(a, "vulnerabilities"))
  }

  function TrackedRetainedCount(admissions: seq<Admission>, now: int): nat {
    if admissions == [] then 0
    else
      var a := admissions[|admissions| - 1];
      TrackedRetainedCount(admissions[..|admissions| - 1], now)
      + One(TrackedRetained(a, "sbom", now)) + One(TrackedRetained(a, "vulnerabilities", now))
  }

  /** At every instant the tracked descriptors split exactly into retained ones and candidates. */
  lemma {:induction false} RetainedOrCandidate(admissions: seq<Admission>, now: int)
    ensures |Candidates(admissions, now)| + TrackedRetainedCount(admissions, now) == TrackedCount(admissions)
  {
    if admissions != [] {
      var a := admissions[|admissions| - 1];
      RetainedOrCandidate(admissions[..|admissions| - 1], now);
      CandidateAtMeans(a, "sbom", Sbom, now);
      CandidateAtMeans(a, "vulnerabilities", ScanReport, now);
    }
  }

  /** Not deleted, and neither retained nor a candidate: no reference, or expired without a digest. */
  predicate Unusable(a: Admission, key: string, now: int) {
    HasDescriptor(a, key)
    && var d := a.evidence[key].d;
       d.status != Deleted && (d.ref.None? || (d.sha.None? && d.expires.Some? && d.expires.value <= now))
  }

  function DescriptorCount(admissions: seq<Admission>): nat {
    if admissions == [] then 0
    else
      var a := admissions[|admissions| - 1];
      DescriptorCount(admissions[..|admissions| - 1])
      + One(HasDescriptor(a, "sbom")) + One(HasDescriptor(a, "vulnerabilities"))
  }

  function UnusableCount(admissions: seq<Admission>, now: int): nat {
    if admissions == [] then 0
    else
      var a := admissions[|admissions| - 1];
      UnusableCount(admissions[..|admissions| - 1], now)
      + One(Unusable(a, "sbom", now)) + One(Unusable(a, "vulnerabilities", now))
  }

  /** At every instant each descriptor is counted exactly once: deleted, retained, candidate or unusable. */
  lemma {:induction false} EveryDescriptorOnce(admissions: seq<Admission>, now: int)
    ensures StatusCount(admissions, Deleted) + RetainedCount(admissions, now) + |Candidates(admissions, now)|
            + UnusableCount(admissions, now) == DescriptorCount(admissions)
  {
    if admissions != [] {
      var a := admissions[|admissions| - 1];
      EveryDescriptorOnce(admissions[..|admissions| - 1], now);
      CandidateAtMeans(a, "sbom", Sbom, now);
      CandidateAtMeans(a, "vulnerabilities", ScanReport, now);
      ExactlyOne(a, "sbom", now);
      ExactlyOne(a, "vulnerabilities", now);
    }
  }

  lemma ExactlyOne(a: Admission, key: string, now: int)
    ensures One(StatusAt(a, key, Deleted)) + One(RetainedAt(a, key, now)) + One(IsCandidate(a, key, now))
            + One(Unusable(a, key, now)) == One(HasDescriptor(a, key))
  {}

  /** As time passes descriptors only move from retained to candidate. */
  lemma {:induction false} TimeMovesOneWay(a: Admission, key: string, now: int, later: int)
    requires now <= later
    ensures IsCandidate(a, key, now) ==> IsCandidate(a, key, later)
    ensures Tracked(a, key) ==>
              (IsCandidate(a, key, later) <==>
               IsCandidate(a, key, now) || (RetainedAt(a, key, now) && !RetainedAt(a, key, later)))
    ensures RetainedAt(a, key, later) ==> RetainedAt(a, key, now)
  {}

  /** So the retained count never grows and the number of candidates never shrinks while the table stays the same. */
  lemma {:induction false} CountsOverTime(admissions: seq<Admission>, now: int, later: int)
    requires now <= later
    ensures |Candidates(admissions, now)| <= |Candidates(admissions, later)|
    ensures RetainedCount(admissions, later) <= RetainedCount(admissions, now)
  {
    if admissions != [] {
      var a := admissions[|admissions| - 1];
      CountsOverTime(admissions[..|admissions| - 1], now, later);
      CandidateAtMeans(a, "sbom", Sbom, now);
      CandidateAtMeans(a, "vulnerabilities", ScanReport, now);
      CandidateAtMeans(a, "sbom", Sbom, later);
      CandidateAtMeans(a, "vulnerabilities", ScanReport, later);
    }
  }
}
