/** Versioned approval policies: drafts, publishing, rollback, and what every run keeps. */
module PolicyVersions {
  import opened Common
  import opened PolicyRules

  datatype Status = Draft | Published | Superseded

  datatype PolicyKey = PolicyKey(project: Id, policyRef: string)

  /** A row of the version table; `check` is the stored validation result. Rows are never deleted, so a row's id is
      its position. */
  datatype VersionRow = VersionRow(
    key: PolicyKey, version: nat, status: Status, rules: seq<Rule>, check: Option<bool>, sourceVersion: Option<Id>)

  datatype Outcome = Done(id: Id) | NotFound | ValidationFailed

  // --- What each operation does to the table ------------------------------------------

  /** `coalesce(max(version), 0)` over one key. */
  function MaxVersion(rows: seq<VersionRow>, key: PolicyKey): (n: nat)
    ensures forall i | 0 <= i < |rows| && rows[i].key == key :: rows[i].version <= n
    ensures n > 0 ==> exists i :: 0 <= i < |rows| && rows[i].key == key && rows[i].version == n
  {
    if rows == [] then 0
    else
      var last := rows[|rows| - 1];
      var rest := MaxVersion(rows[..|rows| - 1], key);
      if last.key == key && last.version > rest then last.version else rest
  }

  function Created(rows: seq<VersionRow>, key: PolicyKey, rules: seq<Rule>, source: Option<Id>): seq<VersionRow> {
    rows + [VersionRow(key, MaxVersion(rows, key) + 1, Draft, rules, None, source)]
  }

  function SupersededRow(row: VersionRow, key: PolicyKey): VersionRow {
    if row.key == key && row.status == Published then row.(status := Superseded) else row
  }

  function SupersedeCurrent(rows: seq<VersionRow>, key: PolicyKey): (r: seq<VersionRow>)
    ensures |r| == |rows|
  {
    seq(|rows|, i requires 0 <= i < |rows| => SupersededRow(rows[i], key))
  }

  predicate IsDraft(rows: seq<VersionRow>, project: Id, id: Id) {
    id < |rows| && rows[id].key.project == project && rows[id].status == Draft
  }

  function Validated(rows: seq<VersionRow>, project: Id, id: Id): (seq<VersionRow>, Outcome) {
    if !IsDraft(rows, project, id) then (rows, NotFound)
    else (rows[id := rows[id].(check := Some(ValidRules(rows[id].rules)))], Done(id))
  }

  function Publish(rows: seq<VersionRow>, project: Id, id: Id): (seq<VersionRow>, Outcome) {
    if !IsDraft(rows, project, id) then (rows, NotFound)
    else if !ValidRules(rows[id].rules) then (rows[id := rows[id].(check := Some(false))], ValidationFailed)
    else (SupersedeCurrent(rows, rows[id].key)[id := rows[id].(status := Published, check := Some(true))], Done(id))
  }

  predicate IsTarget(row: VersionRow, key: PolicyKey, version: nat) {
    row.key == key && row.version == version && row.status != Draft
  }

  /** The first row that matches, or the number of rows. */
  function FindTarget(rows: seq<VersionRow>, key: PolicyKey, version: nat): (k: nat)
    ensures k <= |rows|
    ensures forall i | 0 <= i < k :: !IsTarget(rows[i], key, version)
    ensures k < |rows| ==> IsTarget(rows[k], key, version)
  {
    if rows == [] || IsTarget(rows[0], key, version) then 0 else 1 + FindTarget(rows[1..], key, version)
  }

  function RolledBack(rows: seq<VersionRow>, key: PolicyKey, version: nat): (seq<VersionRow>, Outcome) {
    var k := FindTarget(rows, key, version);
    if k == |rows| then (rows, NotFound)
    else if !ValidRules(rows[k].rules) then (rows, ValidationFailed)
    else
      var kept := SupersedeCurrent(rows, key);
      (kept + [VersionRow(key, MaxVersion(kept, key) + 1, Published, rows[k].rules, Some(true), Some(k))], Done(|rows|))
  }

  /** The row that serves a key: `status = published order by version desc limit 1`. */
  function Latest(rows: seq<VersionRow>, key: PolicyKey): (r: Option<Id>)
    ensures r.Some? ==> r.value < |rows| && rows[r.value].key == key && rows[r.value].status == Published
    ensures r.None? ==> forall i | 0 <= i < |rows| :: !(rows[i].key == key && rows[i].status == Published)
    ensures r.Some? ==> forall i | 0 <= i < |rows| && rows[i].key == key && rows[i].status == Published ::
                          rows[i].version <= rows[r.value].version
  {
    if rows == [] then None
    else
      var n := |rows| - 1;
      var best := Latest(rows[..n], key);
      if rows[n].key == key && rows[n].status == Published
         && (best.None? || rows[best.value].version <= rows[n].version)
      then Some(n) else best
  }

  function Live(rows: seq<VersionRow>, key: PolicyKey): Option<Policy> {
    var id := Latest(rows, key);
    if id.None? then None else Some(Policy(rows[id.value].version, rows[id.value].rules))
  }

  // --- The store ------------------------------------------------------------------------

  class PolicyCenterStore {
    var rows: seq<VersionRow>

    constructor ()
      ensures rows == []
    {
      rows := [];
    }

    method NextVersion(key: PolicyKey) returns (version: nat)
      ensures version == MaxVersion(rows, key) + 1
    {
      var highest: nat := 0;
      for i := 0 to |rows|
        invariant highest == MaxVersion(rows[..i], key)
      {
        assert rows[..i + 1][..i] == rows[..i];
        if rows[i].key == key && rows[i].version > highest {
          highest := rows[i].version;
        }
      }
      assert rows[..|rows|] == rows;
      version := highest + 1;
    }

    method CreateDraft(key: PolicyKey, rules: seq<Rule>, source: Option<Id>) returns (id: Id)
      modifies this
      ensures rows == Created(old(rows), key, rules, source)
      ensures id == |old(rows)|
    {
      var version := NextVersion(key);
      id := |rows|;
      rows := rows + [VersionRow(key, version, Draft, rules, None, source)];
    }

    method ValidateDraft(project: Id, draft: Id) returns (outcome: Outcome)
      modifies this
      ensures (rows, outcome) == Validated(old(rows), project, draft)
    {
      if !IsDraft(rows, project, draft) {
        return NotFound;
      }
      var issues := ValidateRules(rows[draft].rules);
      rows := rows[draft := rows[draft].(check := Some(issues == []))];
      outcome := Done(draft);
    }

    method SupersedeCurrentPolicy(key: PolicyKey)
      modifies this
      ensures rows == SupersedeCurrent(old(rows), key)
    {
      for i := 0 to |rows|
        invariant |rows| == |old(rows)|
        invariant forall j | 0 <= j < i :: rows[j] == SupersededRow(old(rows)[j], key)
        invariant forall j | i <= j < |rows| :: rows[j] == old(rows)[j]
      {
        if rows[i].key == key && rows[i].status == Published {
          rows := rows[i := rows[i].(status := Superseded)];
        }
      }
    }

    method PublishDraft(project: Id, draft: Id) returns (outcome: Outcome)
      modifies this
      ensures (rows, outcome) == Publish(old(rows), project, draft)
    {
      if !IsDraft(rows, project, draft) {
        return NotFound;
      }
      var issues := ValidateRules(rows[draft].rules);
      if issues != [] {
        rows := rows[draft := rows[draft].(check := Some(false))];
        return ValidationFailed;
      }
      SupersedeCurrentPolicy(rows[draft].key);
      assert rows[draft] == old(rows)[draft];
      rows := rows[draft := rows[draft].(status := Published, check := Some(true))];
      outcome := Done(draft);
    }

    method GetByVersion(key: PolicyKey, version: nat) returns (k: nat)
      ensures k == FindTarget(rows, key, version)
    {
      k := 0;
      while k < |rows| && !IsTarget(rows[k], key, version)
        invariant k <= |rows|
        invariant FindTarget(rows, key, version) == k + FindTarget(rows[k..], key, version)
      {
        assert rows[k..][1..] == rows[k + 1..];
        k := k + 1;
      }
    }

    method Rollback(key: PolicyKey, version: nat) returns (outcome: Outcome)
      modifies this
      ensures (rows, outcome) == RolledBack(old(rows), key, version)
    {
      var k := GetByVersion(key, version);
      if k == |rows| {
        return NotFound;
      }
      var target := rows[k];
      var issues := ValidateRules(target.rules);
      if issues != [] {
        return ValidationFailed;
      }
      SupersedeCurrentPolicy(key);
      var next := NextVersion(key);
      outcome := Done(|rows|);
      rows := rows + [VersionRow(key, next, Published, target.rules, Some(true), Some(k))];
    }

    method LoadPublished(key: PolicyKey) returns (policy: Option<Policy>)
      ensures policy == Live(rows, key)
    {
      var best: Option<Id> := None;
      for i := 0 to |rows|
        invariant best == Latest(rows[..i], key)
      {
        assert rows[..i + 1][..i] == rows[..i];
        if rows[i].key == key && rows[i].status == Published
           && (best.None? || rows[best.value].version <= rows[i].version) {
          best := Some(i);
        }
      }
      assert rows[..|rows|] == rows;
      policy := if best.None? then None else Some(Policy(rows[best.value].version, rows[best.value].rules));
    }
  }

  // --- Runs ---------------------------------------------------------------------------------

  datatype Step =
    | Create(key: PolicyKey, rules: seq<Rule>, source: Option<Id>)
    | Check(project: Id, draft: Id)
    | PublishStep(project: Id, draft: Id)
    | RollbackStep(key: PolicyKey, version: nat)

  function Next(rows: seq<VersionRow>, step: Step): seq<VersionRow> {
    match step
    case Create(key, rules, source) => Created(rows, key, rules, source)
    case Check(project, draft) => Validated(rows, project, draft).0
    case PublishStep(project, draft) => Publish(rows, project, draft).0
    case RollbackStep(key, version) => RolledBack(rows, key, version).0
  }

  function Run(rows: seq<VersionRow>, steps: seq<Step>): seq<VersionRow>
    decreases |steps|
  {
    if steps == [] then rows else Run(Next(rows, steps[0]), steps[1..])
  }

  /** How many of the first n rows belong to a key. */
  function Count(rows: seq<VersionRow>, key: PolicyKey, n: nat): nat
    requires n <= |rows|
  {
    if n == 0 then 0 else Count(rows, key, n - 1) + if rows[n - 1].key == key then 1 else 0
  }

  predicate NumberedAt(rows: seq<VersionRow>, i: nat)
    requires i < |rows|
  {
    rows[i].version == Count(rows, rows[i].key, i) + 1
  }

  /** Each row's version is one more than the number of earlier rows of its key. */
  ghost predicate Numbered(rows: seq<VersionRow>) {
    forall i | 0 <= i < |rows| :: NumberedAt(rows, i)
  }

  ghost predicate HasVersion(rows: seq<VersionRow>, key: PolicyKey, v: int) {
    exists i :: 0 <= i < |rows| && rows[i].key == key && rows[i].version == v
  }

  ghost predicate IsLive(rows: seq<VersionRow>, key: PolicyKey, i: int) {
    0 <= i < |rows| && rows[i].key == key && rows[i].status == Published
  }

  ghost predicate OnePublished(rows: seq<VersionRow>) {
    forall key, i, j | IsLive(rows, key, i) && IsLive(rows, key, j) :: i == j
  }

  ghost predicate HasLive(rows: seq<VersionRow>, key: PolicyKey) { exists i :: IsLive(rows, key, i) }

  /** A key that was ever published is published now. */
  ghost predicate StaysPublished(rows: seq<VersionRow>) {
    forall i | 0 <= i < |rows| && rows[i].status != Draft :: HasLive(rows, rows[i].key)
  }

  ghost predicate ReleasedValid(rows: seq<VersionRow>) {
    forall i | 0 <= i < |rows| && rows[i].status != Draft :: ValidRules(rows[i].rules) && rows[i].check == Some(true)
  }

  ghost predicate Inv(rows: seq<VersionRow>) {
    Numbered(rows) && OnePublished(rows) && StaysPublished(rows) && ReleasedValid(rows)
  }

  /** Which fields an operation may touch: rows stay, drafts may be checked or published, published rows may be
      superseded. */
  ghost predicate Extends(before: seq<VersionRow>, after: seq<VersionRow>) {
    |before| <= |after| && forall i | 0 <= i < |before| :: RowExtends(before[i], after[i])
  }

  predicate RowExtends(before: VersionRow, after: VersionRow) {
    && after == before.(status := after.status, check := after.check)
    && (before.status == Published ==> after.status != Draft)
    && (before.status == Superseded ==> after.status == Superseded)
    && (before.status != Draft ==> after.check == before.check)
  }

  lemma {:induction false} CountFrame(before: seq<VersionRow>, after: seq<VersionRow>, key: PolicyKey, n: nat)
    requires n <= |before| && n <= |after|
    requires forall i | 0 <= i < n :: after[i].key == before[i].key
    ensures Count(after, key, n) == Count(before, key, n)
  {
    if n > 0 {
      CountFrame(before, after, key, n - 1);
    }
  }

  lemma {:induction false} CountMonotone(rows: seq<VersionRow>, key: PolicyKey, m: nat, n: nat)
    requires m <= n <= |rows|
    ensures Count(rows, key, m) <= Count(rows, key, n)
    ensures forall i | m <= i < n && rows[i].key == key :: Count(rows, key, m) < Count(rows, key, n)
    decreases n
  {
    if m < n {
      CountMonotone(rows, key, m, n - 1);
    }
  }

  lemma {:induction false} NumberedPrefix(rows: seq<VersionRow>, n: nat)
    requires Numbered(rows) && n <= |rows|
    ensures Numbered(rows[..n])
  {
    var rest := rows[..n];
    forall i | 0 <= i < n
      ensures NumberedAt(rest, i)
    {
      assert NumberedAt(rows, i);
      CountFrame(rows, rest, rest[i].key, i);
    }
  }

  /** In a numbered table the highest version of a key is the number of its rows. */
  lemma {:induction false} MaxIsCount(rows: seq<VersionRow>, key: PolicyKey)
    requires Numbered(rows)
    ensures MaxVersion(rows, key) == Count(rows, key, |rows|)
  {
    if rows != [] {
      var n := |rows| - 1;
      assert NumberedAt(rows, n);
      NumberedPrefix(rows, n);
      hide Numbered;
      MaxIsCount(rows[..n], key);
      CountFrame(rows, rows[..n], key, n);
    }
  }

  lemma {:induction false} NumberedExtends(before: seq<VersionRow>, after: seq<VersionRow>)
    requires Numbered(before) && Extends(before, after)
    requires |after| <= |before| + 1
    requires |after| == |before| + 1 ==>
               after[|before|].version == MaxVersion(before, after[|before|].key) + 1
    ensures Numbered(after)
  {
    forall i | 0 <= i < |after|
      ensures NumberedAt(after, i)
    {
      CountFrame(before, after, after[i].key, i);
      if i == |before| {
        MaxIsCount(before, after[i].key);
      } else {
        assert NumberedAt(before, i);
      }
    }
  }

  lemma {:induction false} MaxFrame(before: seq<VersionRow>, after: seq<VersionRow>, key: PolicyKey)
    requires |before| == |after|
    requires forall i | 0 <= i < |before| :: after[i].key == before[i].key && after[i].version == before[i].version
    ensures MaxVersion(after, key) == MaxVersion(before, key)
  {
    if before != [] {
      MaxFrame(before[..|before| - 1], after[..|before| - 1], key);
    }
  }

  lemma {:induction false} SupersededExtends(row: VersionRow, key: PolicyKey)
    ensures RowExtends(row, row) && RowExtends(row, SupersededRow(row, key))
  {}

  lemma {:induction false} DraftExtends(row: VersionRow, status: Status, check: Option<bool>)
    requires row.status == Draft
    ensures RowExtends(row, row.(status := status, check := check))
  {}

  lemma {:induction false} StepExtends(rows: seq<VersionRow>, step: Step)
    ensures Extends(rows, Next(rows, step))
  {
    hide ValidRules, MaxVersion, FindTarget, RowExtends, SupersededRow;
    match step {
      case Create(key, rules, source) =>
        forall i | 0 <= i < |rows| {
          SupersededExtends(rows[i], key);
        }
      case Check(project, draft) =>
        CheckExtends(rows, project, draft);
      case PublishStep(project, draft) =>
        PublishExtends(rows, project, draft);
      case RollbackStep(key, version) =>
        forall i | 0 <= i < |rows| {
          SupersededExtends(rows[i], key);
        }
    }
  }

  lemma {:induction false} CheckExtends(rows: seq<VersionRow>, project: Id, draft: Id)
    ensures Extends(rows, Validated(rows, project, draft).0)
  {
    hide ValidRules, RowExtends;
    forall i | 0 <= i < |rows|
      ensures RowExtends(rows[i], Validated(rows, project, draft).0[i])
    {
      SupersededExtends(rows[i], rows[i].key);
      if IsDraft(rows, project, draft) {
        DraftExtends(rows[draft], Draft, Some(ValidRules(rows[draft].rules)));
      }
    }
  }

  lemma {:induction false} PublishExtends(rows: seq<VersionRow>, project: Id, draft: Id)
    ensures Extends(rows, Publish(rows, project, draft).0)
  {
    hide ValidRules, RowExtends;
    forall i | 0 <= i < |rows|
      ensures RowExtends(rows[i], Publish(rows, project, draft).0[i])
    {
      SupersededExtends(rows[i], rows[i].key);
      if IsDraft(rows, project, draft) {
        SupersededExtends(rows[i], rows[draft].key);
        DraftExtends(rows[draft], Draft, Some(false));
        DraftExtends(rows[draft], Published, Some(true));
      }
    }
  }

  /** One step keeps numbering, uniqueness of the published version, and validity of everything ever published. */
  lemma {:induction false} StepKeepsInv(rows: seq<VersionRow>, step: Step)
    requires Inv(rows)
    ensures Inv(Next(rows, step))
  {
    StepExtends(rows, step);
    var after := Next(rows, step);
    hide MaxVersion, ValidRules, Numbered;
    match step {
      case Create(key, rules, source) =>
        NumberedExtends(rows, after);
        SameStatuses(rows, after);
      case Check(project, draft) =>
        NumberedExtends(rows, after);
        SameStatuses(rows, after);
      case PublishStep(project, draft) =>
        NumberedExtends(rows, after);
        if IsDraft(rows, project, draft) && ValidRules(rows[draft].rules) {
          Promoted(rows, after, rows[draft].key, draft);
        } else {
          SameStatuses(rows, after);
        }
      case RollbackStep(key, version) =>
        MaxFrame(rows, SupersedeCurrent(rows, key), key);
        NumberedExtends(rows, after);
        var k := FindTarget(rows, key, version);
        if k < |rows| && ValidRules(rows[k].rules) {
          Promoted(rows, after, key, |rows|);
        }
    }
  }

  /** Adding drafts or recording checks of drafts. */
  lemma {:induction false} SameStatuses(before: seq<VersionRow>, after: seq<VersionRow>)
    requires OnePublished(before) && StaysPublished(before) && ReleasedValid(before) && Extends(before, after)
    requires forall i | 0 <= i < |before| :: after[i].status == before[i].status
    requires forall i | |before| <= i < |after| :: after[i].status == Draft
    ensures OnePublished(after) && StaysPublished(after) && ReleasedValid(after)
    ensures forall key, i :: IsLive(after, key, i) <==> IsLive(before, key, i)
  {
    hide ValidRules;
    assert forall key, i :: IsLive(after, key, i) <==> IsLive(before, key, i);
  }

  /** Row `p` becomes the one published row of its key. */
  ghost predicate Promotes(before: seq<VersionRow>, after: seq<VersionRow>, key: PolicyKey, p: nat) {
    && Extends(before, after)
    && p < |after| <= |before| + 1 && (|after| > |before| ==> p == |before|)
    && after[p].key == key && after[p].status == Published && after[p].check == Some(true) && ValidRules(after[p].rules)
    && forall i | 0 <= i < |before| && i != p :: after[i] == SupersededRow(before[i], key)
  }

  lemma {:induction false} PromotedLive(before: seq<VersionRow>, after: seq<VersionRow>, key: PolicyKey, p: nat)
    requires Promotes(before, after, key, p)
    ensures forall i :: IsLive(after, key, i) <==> i == p
    ensures forall other, i | other != key :: IsLive(after, other, i) <==> IsLive(before, other, i)
  {
    hide ValidRules;
    assert p < |before| ==> after[p].key == before[p].key;
  }

  lemma {:induction false} Promoted(before: seq<VersionRow>, after: seq<VersionRow>, key: PolicyKey, p: nat)
    requires OnePublished(before) && StaysPublished(before) && ReleasedValid(before)
    requires Promotes(before, after, key, p)
    ensures OnePublished(after) && StaysPublished(after) && ReleasedValid(after)
    ensures forall other, i | other != key :: IsLive(after, other, i) <==> IsLive(before, other, i)
    ensures IsLive(after, key, p)
  {
    hide ValidRules, HasLive, IsLive;
    PromotedLive(before, after, key, p);
    assert OnePublished(after);
    PromotedStays(before, after, key, p);
    assert ReleasedValid(after) by {
      hide StaysPublished, OnePublished;
    }
  }

  lemma {:induction false} PromotedStays(before: seq<VersionRow>, after: seq<VersionRow>, key: PolicyKey, p: nat)
    requires StaysPublished(before) && Promotes(before, after, key, p)
    ensures StaysPublished(after)
  {
    PromotedLive(before, after, key, p);
    hide ValidRules, IsLive;
    forall i | 0 <= i < |after| && after[i].status != Draft
      ensures HasLive(after, after[i].key)
    {
      if after[i].key == key {
        assert IsLive(after, key, p);
      } else {
        assert i != p && HasLive(before, before[i].key);
        var j :| IsLive(before, before[i].key, j);
        assert IsLive(after, after[i].key, j);
      }
    }
  }

  lemma {:induction false} RunKeepsInv(rows: seq<VersionRow>, steps: seq<Step>)
    requires Inv(rows)
    ensures Inv(Run(rows, steps))
    ensures Extends(rows, Run(rows, steps))
    decreases |steps|
  {
    if steps != [] {
      StepKeepsInv(rows, steps[0]);
      StepExtends(rows, steps[0]);
      RunKeepsInv(Next(rows, steps[0]), steps[1..]);
    }
  }

  // --- What every run guarantees ---------------------------------------------------------

  /** The version numbers of a key are exactly 1..n, each used once, so the unique constraint never trips. */
  lemma {:induction false} VersionsAreOneToN(steps: seq<Step>, key: PolicyKey)
    ensures var rows := Run([], steps);
            && (forall v :: HasVersion(rows, key, v) <==> 1 <= v <= Count(rows, key, |rows|))
            && forall i, j | 0 <= i < j < |rows| && rows[i].key == rows[j].key :: rows[i].version < rows[j].version
  {
    RunKeepsInv([], steps);
    var rows := Run([], steps);
    forall v
      ensures HasVersion(rows, key, v) <==> 1 <= v <= Count(rows, key, |rows|)
    {
      if 1 <= v <= Count(rows, key, |rows|) {
        var i := RowOf(rows, key, v, |rows|);
      }
      forall i | 0 <= i < |rows| && rows[i].key == key && rows[i].version == v
        ensures 1 <= v <= Count(rows, key, |rows|)
      {
        assert NumberedAt(rows, i);
        CountMonotone(rows, key, i, |rows|);
      }
    }
    forall i, j | 0 <= i < j < |rows| && rows[i].key == rows[j].key
      ensures rows[i].version < rows[j].version
    {
      assert NumberedAt(rows, i) && NumberedAt(rows, j);
      CountMonotone(rows, rows[i].key, i, j);
    }
  }

  lemma {:induction false} RowOf(rows: seq<VersionRow>, key: PolicyKey, v: nat, n: nat) returns (i: nat)
    requires Numbered(rows) && n <= |rows| && 1 <= v <= Count(rows, key, n)
    ensures i < n && rows[i].key == key && rows[i].version == v
  {
    assert NumberedAt(rows, n - 1);
    if Count(rows, key, n - 1) < v {
      i := n - 1;
    } else {
      i := RowOf(rows, key, v, n - 1);
    }
  }

  /** A rollback never fails validation: it succeeds exactly when the version was ever published. */
  lemma {:induction false} RollbackSucceeds(steps: seq<Step>, key: PolicyKey, version: nat)
    ensures var rows := Run([], steps);
            var outcome := RolledBack(rows, key, version).1;
            && outcome != ValidationFailed
            && (outcome.Done? <==> exists i :: 0 <= i < |rows| && IsTarget(rows[i], key, version))
  {
    hide ValidRules, IsTarget;
    RunKeepsInv([], steps);
    hide Run, Inv;
    RollbackSucceedsIn(Run([], steps), key, version);
  }

  lemma {:induction false} RollbackSucceedsIn(rows: seq<VersionRow>, key: PolicyKey, version: nat)
    requires Inv(rows)
    ensures RolledBack(rows, key, version).1 != ValidationFailed
    ensures RolledBack(rows, key, version).1.Done? <==> exists i :: 0 <= i < |rows| && IsTarget(rows[i], key, version)
  {
    hide ValidRules;
    var k := FindTarget(rows, key, version);
    assert k < |rows| ==> IsTarget(rows[k], key, version);
  }

  lemma {:induction false} LiveIs(rows: seq<VersionRow>, key: PolicyKey, p: nat)
    requires OnePublished(rows) && IsLive(rows, key, p)
    ensures Latest(rows, key) == Some(p)
  {
    var found := Latest(rows, key);
    assert found.Some? ==> IsLive(rows, key, found.value);
  }

  /** Rolling back to the version that was live at some moment brings back its rules: every request gets the decision
      and the rule it got then, whatever was drafted, published or rolled back in between. */
  lemma {:induction false} RollbackRestores(earlier: seq<Step>, later: seq<Step>, key: PolicyKey, request: Request)
    requires Live(Run([], earlier), key).Some?
    ensures var then_ := Live(Run([], earlier), key);
            var now := Run(Run([], earlier), later);
            var (restored, outcome) := RolledBack(now, key, then_.value.version);
            && outcome.Done?
            && Live(restored, key).Some?
            && Live(restored, key).value.rules == then_.value.rules
            && Evaluate(Live(restored, key), request).decision == Evaluate(then_, request).decision
            && Evaluate(Live(restored, key), request).ruleRef == Evaluate(then_, request).ruleRef
  {
    var before := Run([], earlier);
    var now := Run(before, later);
    RunKeepsInv([], earlier);
    RunKeepsInv(before, later);
    var p := Latest(before, key).value;
    hide Run, Latest;
    assert IsTarget(now[p], key, before[p].version);
    RollbackRestoresRow(now, key, p);
    SameRulesSameVerdict(Live(RolledBack(now, key, before[p].version).0, key).value, Live(before, key).value, request);
  }

  lemma {:induction false} VersionsDistinct(rows: seq<VersionRow>, i: nat, j: nat)
    requires Numbered(rows) && i < |rows| && j < |rows|
    requires rows[i].key == rows[j].key && rows[i].version == rows[j].version
    ensures i == j
  {
    assert NumberedAt(rows, i) && NumberedAt(rows, j);
    if i < j {
      CountMonotone(rows, rows[i].key, i, j);
    } else if j < i {
      CountMonotone(rows, rows[i].key, j, i);
    }
  }

  lemma {:induction false} RollbackRestoresRow(rows: seq<VersionRow>, key: PolicyKey, p: nat)
    requires Inv(rows) && p < |rows| && rows[p].key == key && rows[p].status != Draft
    ensures var (restored, outcome) := RolledBack(rows, key, rows[p].version);
            outcome.Done? && Live(restored, key) == Some(Policy(MaxVersion(rows, key) + 1, rows[p].rules))
  {
    hide ValidRules, Latest, MaxVersion, Numbered, StaysPublished;
    var version := rows[p].version;
    StepKeepsInv(rows, RollbackStep(key, version));
    var k := FindTarget(rows, key, version);
    assert IsTarget(rows[p], key, version);
    VersionsDistinct(rows, k, p);
    var restored := RolledBack(rows, key, version).0;
    MaxFrame(rows, SupersedeCurrent(rows, key), key);
    hide Inv;
    assert IsLive(restored, key, |rows|);
    LiveIs(restored, key, |rows|);
  }

  lemma {:induction false} SameRulesSameVerdict(a: Policy, b: Policy, request: Request)
    requires a.rules == b.rules
    ensures Evaluate(Some(a), request).decision == Evaluate(Some(b), request).decision
    ensures Evaluate(Some(a), request).ruleRef == Evaluate(Some(b), request).ruleRef
  {}

  /** The key whose live policy a step may replace. */
  function TouchedKey(rows: seq<VersionRow>, step: Step): Option<PolicyKey> {
    match step
    case Create(_, _, _) => None
    case Check(_, _) => None
    case PublishStep(project, draft) => if IsDraft(rows, project, draft) then Some(rows[draft].key) else None
    case RollbackStep(key, _) => Some(key)
  }

  lemma {:induction false} LatestIsLive(rows: seq<VersionRow>, key: PolicyKey)
    ensures Latest(rows, key).Some? ==> IsLive(rows, key, Latest(rows, key).value)
    ensures Latest(rows, key).None? ==> forall i :: !IsLive(rows, key, i)
  {
    hide Latest;
  }

  lemma {:induction false} LiveRowsStay(rows: seq<VersionRow>, step: Step, key: PolicyKey)
    requires TouchedKey(rows, step) != Some(key)
    ensures forall i :: IsLive(Next(rows, step), key, i) <==> IsLive(rows, key, i)
  {
    hide ValidRules, MaxVersion, FindTarget;
  }

  /** Drafting and validating never change a live policy; publishing and rollback change only that of their own key. */
  lemma {:induction false} StepIsolated(rows: seq<VersionRow>, step: Step, key: PolicyKey)
    requires Inv(rows) && TouchedKey(rows, step) != Some(key)
    ensures Live(Next(rows, step), key) == Live(rows, key)
  {
    hide Next, Latest, IsLive, Numbered, ReleasedValid, StaysPublished;
    var after := Next(rows, step);
    StepExtends(rows, step);
    StepKeepsInv(rows, step);
    LiveRowsStay(rows, step, key);
    LatestIsLive(rows, key);
    LatestIsLive(after, key);
    var p := Latest(rows, key);
    if p.Some? {
      assert IsLive(after, key, p.value);
      LiveIs(after, key, p.value);
      assert RowExtends(rows[p.value], after[p.value]);
    }
  }

  /** A row of the project, still a draft, that would validate or not. */
  predicate DraftOf(rows: seq<VersionRow>, project: Id, id: Id, valid: bool) {
    && id < |rows| && rows[id].key.project == project && rows[id].status == Draft
    && (valid <==> DistinctIds(rows[id].rules) && KeepsFloor(rows[id].rules) && NoClash(rows[id].rules))
  }

  /** Publishing succeeds exactly for valid drafts of the project and makes exactly the rules of the draft live; a
      failed check is recorded on the draft and nothing else is written. */
  lemma {:induction false} PublishGoesLive(rows: seq<VersionRow>, project: Id, draft: Id)
    requires Inv(rows)
    ensures var (after, outcome) := Publish(rows, project, draft);
            && (outcome.Done? <==> DraftOf(rows, project, draft, true))
            && (outcome == ValidationFailed <==> DraftOf(rows, project, draft, false))
            && (outcome == NotFound ==> after == rows)
            && (outcome == ValidationFailed ==> after == rows[draft := rows[draft].(check := Some(false))])
            && (outcome.Done? ==>
                  Live(after, rows[draft].key) == Some(Policy(rows[draft].version, rows[draft].rules)))
  {
    hide DistinctIds, KeepsFloor, NoClash, Latest;
    if Publish(rows, project, draft).1.Done? {
      var after := Publish(rows, project, draft).0;
      StepKeepsInv(rows, PublishStep(project, draft));
      assert IsLive(after, rows[draft].key, draft);
      LiveIs(after, rows[draft].key, draft);
    }
  }

  /** Validating finds exactly the drafts of the project and writes only the result, on the draft. */
  lemma {:induction false} CheckWrites(rows: seq<VersionRow>, project: Id, draft: Id, valid: bool)
    ensures Validated(rows, project, draft).1 == Done(draft) || Validated(rows, project, draft) == (rows, NotFound)
    ensures DraftOf(rows, project, draft, valid) ==>
              Validated(rows, project, draft) == (rows[draft := rows[draft].(check := Some(valid))], Done(draft))
    ensures Validated(rows, project, draft).1.Done? ==>
              DraftOf(rows, project, draft, true) || DraftOf(rows, project, draft, false)
  {
    hide DistinctIds, KeepsFloor, NoClash;
  }

  /** In every reachable table a new draft has the key, rules and source it was given and a version one higher than the
      number of rows of its key. */
  lemma {:induction false} DraftWrites(rows: seq<VersionRow>, key: PolicyKey, rules: seq<Rule>, source: Option<Id>)
    requires Inv(rows)
    ensures Created(rows, key, rules, source) ==
            rows + [VersionRow(key, Count(rows, key, |rows|) + 1, Draft, rules, None, source)]
  {
    MaxIsCount(rows, key);
  }

  /** A rollback that succeeds adds one row, published and checked, with the rules of the row of the key that once was
      published under this version, and names that row as its source; the rows before are superseded, not rewritten. */
  lemma {:induction false} RollbackWrites(rows: seq<VersionRow>, key: PolicyKey, version: nat) returns (k: nat)
    requires Inv(rows) && RolledBack(rows, key, version).1.Done?
    ensures k < |rows| && rows[k].key == key && rows[k].version == version && rows[k].status in {Published, Superseded}
    ensures var (after, outcome) := RolledBack(rows, key, version);
            && outcome == Done(|rows|) && |after| == |rows| + 1
            && after[|rows|] ==
               VersionRow(key, Count(rows, key, |rows|) + 1, Published, rows[k].rules, Some(true), Some(k))
            && forall i | 0 <= i < |rows| :: after[i] ==
                 if rows[i].key == key && rows[i].status == Published then rows[i].(status := Superseded) else rows[i]
  {
    hide ValidRules, MaxVersion, Count, OnePublished, StaysPublished, ReleasedValid, Numbered, FindTarget;
    k := FindTarget(rows, key, version);
    MaxFrame(rows, SupersedeCurrent(rows, key), key);
    MaxIsCount(rows, key);
    hide Inv;
  }
}
