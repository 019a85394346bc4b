/** Interleaved publishers of approval policies: no index keeps a second version of a key from being published. */
module PolicyRaces {
  import opened Common
  import opened PolicyRules
  import opened PolicyVersions

  /** What a transaction will write at its commit besides superseding: a draft it promotes or a row it inserts. */
  datatype Change = Promote(draft: Id) | Insert(row: VersionRow)

  /** A transaction between its reads and its commit. It supersedes the rows it saw published; `begun` and `known`
      are the numbers of releases and rows it saw. */
  datatype Pending = Pending(key: PolicyKey, change: Change, superseded: set<Id>, begun: nat, known: nat)

  /** A committed publication of a row. */
  datatype Release = Release(key: PolicyKey, row: Id, begun: nat)

  datatype State = State(rows: seq<VersionRow>, log: seq<Release>, pending: map<Id, Pending>, nextTicket: Id)

  datatype Result =
    | Begun(ticket: Id) | Refused(reason: Outcome) | Committed(row: Id) | Conflict | NoTicket | Changed

  // --- Transactions -----------------------------------------------------------

  /** The published rows of a key among the first n. */
  function PublishedOf(rows: seq<VersionRow>, key: PolicyKey, n: nat): (r: set<Id>)
    requires n <= |rows|
    ensures forall i: Id :: i in r <==> i < n && rows[i].key == key && rows[i].status == Published
  {
    if n == 0 then {}
    else
      PublishedOf(rows, key, n - 1)
      + if rows[n - 1].key == key && rows[n - 1].status == Published then {n - 1} else {}
  }

  function Opened(s: State, key: PolicyKey, change: Change): (State, Result) {
    var p := Pending(key, change, PublishedOf(s.rows, key, |s.rows|), |s.log|, |s.rows|);
    (s.(pending := s.pending[s.nextTicket := p], nextTicket := s.nextTicket + 1), Begun(s.nextTicket))
  }

  function BeginPublish(s: State, project: Id, id: Id): (State, Result) {
    if !IsDraft(s.rows, project, id) then (s, Refused(NotFound))
    else if !ValidRules(s.rows[id].rules) then
      (s.(rows := s.rows[id := s.rows[id].(check := Some(false))]), Refused(ValidationFailed))
    else Opened(s, s.rows[id].key, Promote(id))
  }

  function BeginRollback(s: State, key: PolicyKey, version: nat): (State, Result) {
    var k := FindTarget(s.rows, key, version);
    if k == |s.rows| then (s, Refused(NotFound))
    else if !ValidRules(s.rows[k].rules) then (s, Refused(ValidationFailed))
    else
      var next := MaxVersion(s.rows, key) + 1;
      Opened(s, key, Insert(VersionRow(key, next, Published, s.rows[k].rules, Some(true), Some(k))))
  }

  function Retired(rows: seq<VersionRow>, ids: set<Id>): (r: seq<VersionRow>)
    ensures |r| == |rows|
  {
    seq(|rows|, i requires 0 <= i < |rows| => if i in ids then rows[i].(status := Superseded) else rows[i])
  }

  /** The unique constraint over project, policy reference and version. */
  predicate Taken(rows: seq<VersionRow>, key: PolicyKey, version: nat) {
    exists i :: 0 <= i < |rows| && rows[i].key == key && rows[i].version == version
  }

  function PromotedRow(row: VersionRow): VersionRow { row.(status := Published, check := Some(true)) }

  /** A commit: all writes or, if the constraint refuses the new row, none. */
  function Commit(s: State, ticket: Id): (State, Result) {
    if ticket !in s.pending then (s, NoTicket)
    else
      var p := s.pending[ticket];
      var rest := s.(pending := s.pending - {ticket});
      var retired := Retired(s.rows, p.superseded);
      match p.change
      case Promote(id) =>
        if id >= |s.rows| then (rest, NoTicket)
        else
          (rest.(rows := retired[id := PromotedRow(retired[id])], log := s.log + [Release(p.key, id, p.begun)]),
           Committed(id))
      case Insert(row) =>
        if Taken(s.rows, row.key, row.version) then (rest, Conflict)
        else
          (rest.(rows := retired + [row], log := s.log + [Release(p.key, |s.rows|, p.begun)]),
           Committed(|s.rows|))
  }

  // --- The store --------------------------------------------------------------

  class PolicyTransactions {
    const store: PolicyCenterStore
    var log: seq<Release>
    var pending: map<Id, Pending>
    var nextTicket: Id

    ghost function Abstract(): State
      reads this, store
    {
      State(store.rows, log, pending, nextTicket)
    }

    constructor (store: PolicyCenterStore)
      ensures this.store == store && Abstract() == State(store.rows, [], map[], 0)
    {
      this.store := store;
      log, pending, nextTicket := [], map[], 0;
    }

    method FindPublished(key: PolicyKey) returns (ids: set<Id>)
      ensures ids == PublishedOf(store.rows, key, |store.rows|)
    {
      ids := {};
      for i := 0 to |store.rows|
        invariant ids == PublishedOf(store.rows, key, i)
      {
        if store.rows[i].key == key && store.rows[i].status == Published {
          ids := ids + {i};
        }
      }
    }

    method Open(key: PolicyKey, change: Change) returns (result: Result)
      modifies this
      ensures (Abstract(), result) == Opened(old(Abstract()), key, change)
    {
      var superseded := FindPublished(key);
      result := Begun(nextTicket);
      pending := pending[nextTicket := Pending(key, change, superseded, |log|, |store.rows|)];
      nextTicket := nextTicket + 1;
    }

    /** The checks and uncommitted writes of a publisher. */
    method OpenPublish(project: Id, draft: Id) returns (result: Result)
      modifies this, store
      ensures (Abstract(), result) == BeginPublish(old(Abstract()), project, draft)
    {
      hide ValidRules, PublishedOf;
      if !IsDraft(store.rows, project, draft) {
        return Refused(NotFound);
      }
      var issues := ValidateRules(store.rows[draft].rules);
      if issues != [] {
        store.rows := store.rows[draft := store.rows[draft].(check := Some(false))];
        return Refused(ValidationFailed);
      }
      result := Open(store.rows[draft].key, Promote(draft));
    }

    /** The checks and uncommitted writes of a rollback. */
    method OpenRollback(key: PolicyKey, version: nat) returns (result: Result)
      modifies this
      ensures (Abstract(), result) == BeginRollback(old(Abstract()), key, version)
    {
      hide ValidRules, PublishedOf, MaxVersion, FindTarget;
      var k := store.GetByVersion(key, version);
      if k == |store.rows| {
        return Refused(NotFound);
      }
      var target := store.rows[k];
      var issues := ValidateRules(target.rules);
      if issues != [] {
        return Refused(ValidationFailed);
      }
      var next := store.NextVersion(key);
      result := Open(key, Insert(VersionRow(key, next, Published, target.rules, Some(true), Some(k))));
    }

    method Retire(ids: set<Id>)
      modifies store
      ensures store.rows == Retired(old(store.rows), ids)
    {
      ghost var before := store.rows;
      for i := 0 to |store.rows|
        invariant |store.rows| == |before|
        invariant forall j | 0 <= j < i :: store.rows[j] == Retired(before, ids)[j]
        invariant forall j | i <= j < |before| :: store.rows[j] == before[j]
      {
        if i in ids {
          store.rows := store.rows[i := store.rows[i].(status := Superseded)];
        }
      }
    }

    /** Applies the writes, lets the unique constraint judge a new row, and rolls back if it refuses. */
    method Finish(ticket: Id) returns (result: Result)
      modifies this, store
      ensures (Abstract(), result) == Commit(old(Abstract()), ticket)
    {
      hide Retired, Taken;
      if ticket !in pending {
        return NoTicket;
      }
      var p := pending[ticket];
      pending := pending - {ticket};
      var before := store.rows;
      match p.change {
        case Promote(id) =>
          if id >= |store.rows| {
            return NoTicket;
          }
          Retire(p.superseded);
          store.rows := store.rows[id := store.rows[id].(status := Published, check := Some(true))];
          log := log + [Release(p.key, id, p.begun)];
          result := Committed(id);
        case Insert(row) =>
          Retire(p.superseded);
          if Taken(before, row.key, row.version) {
            store.rows := before;
            return Conflict;
          }
          store.rows := store.rows + [row];
          log := log + [Release(p.key, |before|, p.begun)];
          result := Committed(|before|);
      }
    }
  }

  // --- Runs -------------------------------------------------------------------

  datatype Step =
    | OpenDraft(project: Id, draft: Id)
    | OpenVersion(key: PolicyKey, version: nat)
    | CommitStep(ticket: Id)
    | CreateStep(key: PolicyKey, rules: seq<Rule>, source: Option<Id>)
    | CheckStep(project: Id, draft: Id)

  function Take(s: State, step: Step): (State, Result) {
    match step
    case OpenDraft(project, draft) => BeginPublish(s, project, draft)
    case OpenVersion(key, version) => BeginRollback(s, key, version)
    case CommitStep(ticket) => Commit(s, ticket)
    case CreateStep(key, rules, source) => (s.(rows := Created(s.rows, key, rules, source)), Changed)
    case CheckStep(project, draft) => (s.(rows := Validated(s.rows, project, draft).0), Changed)
  }

  function After(s: State, steps: seq<Step>): State
    decreases |steps|
  {
    if steps == [] then s else After(Take(s, steps[0]).0, steps[1..])
  }

  const START := State([], [], map[], 0)

  // --- Which rows stay published ----------------------------------------------

  /** A release reads before it commits. */
  predicate Ordered(log: seq<Release>) { forall i | 0 <= i < |log| :: log[i].begun <= i }

  /** The rows of a key that a log of releases leaves published: each release retires what was published when it
      read. */
  function LiveRows(log: seq<Release>, key: PolicyKey): (r: set<Id>)
    requires Ordered(log)
    ensures forall i :: i in r ==> exists k :: 0 <= k < |log| && log[k].key == key && log[k].row == i
    decreases |log|
  {
    if log == [] then {}
    else
      var init, last := log[..|log| - 1], log[|log| - 1];
      if last.key == key then LiveRows(init, key) - LiveRows(log[..last.begun], key) + {last.row}
      else LiveRows(init, key)
  }

  ghost predicate PendingOk(s: State, p: Pending)
    requires Ordered(s.log)
  {
    && p.begun <= |s.log| && p.known <= |s.rows|
    && p.superseded == LiveRows(s.log[..p.begun], p.key)
    && match p.change
       case Promote(id) => id < |s.rows| && s.rows[id].key == p.key && ValidRules(s.rows[id].rules)
       case Insert(row) =>
         && row.key == p.key && row.status == Published && row.check == Some(true) && ValidRules(row.rules)
         && row.version == Count(s.rows, p.key, p.known) + 1
  }

  predicate ReleaseOk(rows: seq<VersionRow>, r: Release) {
    r.row < |rows| && rows[r.row].key == r.key && rows[r.row].status != Draft
  }

  ghost predicate InLog(log: seq<Release>, i: Id) { exists k :: 0 <= k < |log| && log[k].row == i }

  /** Whatever is no draft was released. */
  ghost predicate ReleasesLogged(rows: seq<VersionRow>, log: seq<Release>) {
    forall i: Id | i < |rows| && rows[i].status != Draft :: InLog(log, i)
  }

  ghost predicate Inv(s: State) {
    && Numbered(s.rows) && ReleasedValid(s.rows) && Ordered(s.log)
    && (forall k | 0 <= k < |s.log| :: ReleaseOk(s.rows, s.log[k]))
    && ReleasesLogged(s.rows, s.log)
    && (forall key :: PublishedOf(s.rows, key, |s.rows|) == LiveRows(s.log, key))
    && (forall ticket | ticket in s.pending :: PendingOk(s, s.pending[ticket]))
  }

  lemma {:induction false} LiveNext(log: seq<Release>, r: Release, key: PolicyKey)
    requires Ordered(log) && r.begun <= |log|
    ensures Ordered(log + [r])
    ensures LiveRows(log + [r], key) ==
            if r.key == key then LiveRows(log, key) - LiveRows(log[..r.begun], key) + {r.row} else LiveRows(log, key)
  {
    var all := log + [r];
    assert all[..|all| - 1] == log && all[..r.begun] == log[..r.begun];
  }

  /** Which rows a run may change how: key, version and rules stay. */
  predicate RowsKept(before: seq<VersionRow>, after: seq<VersionRow>) {
    && |before| <= |after| <= |before| + 1
    && forall i | 0 <= i < |before| ::
         after[i].key == before[i].key && after[i].version == before[i].version && after[i].rules == before[i].rules
  }

  lemma {:induction false} NumberedKept(before: seq<VersionRow>, after: seq<VersionRow>)
    requires Numbered(before) && RowsKept(before, after)
    requires |after| > |before| ==> after[|before|].version == Count(before, after[|before|].key, |before|) + 1
    ensures Numbered(after)
  {
    hide Count;
    forall i | 0 <= i < |after|
      ensures NumberedAt(after, i)
    {
      CountFrame(before, after, after[i].key, i);
      if i < |before| {
        assert NumberedAt(before, i);
      }
    }
  }

  lemma {:induction false} PendingKept(s: State, s': State, p: Pending)
    requires Ordered(s.log) && Ordered(s'.log) && PendingOk(s, p)
    requires RowsKept(s.rows, s'.rows) && |s.log| <= |s'.log| && s'.log[..|s.log|] == s.log
    ensures PendingOk(s', p)
  {
    hide ValidRules, LiveRows;
    assert s'.log[..p.begun] == s.log[..p.begun];
    CountFrame(s.rows, s'.rows, p.key, p.known);
  }

  // --- What a commit changes --------------------------------------------------

  /** The rows after a commit of `p` that wrote row `n`. */
  ghost predicate Wrote(s: State, p: Pending, n: Id, rows: seq<VersionRow>) {
    && RowsKept(s.rows, rows) && n < |rows| && (|rows| > |s.rows| ==> n == |s.rows|)
    && rows[n].key == p.key && rows[n].status == Published && rows[n].check == Some(true) && ValidRules(rows[n].rules)
    && (forall i | 0 <= i < |s.rows| && i != n ::
          rows[i] == if i in p.superseded then s.rows[i].(status := Superseded) else s.rows[i])
  }

  lemma {:induction false} CommitWrites(s: State, ticket: Id)
    requires Inv(s) && ticket in s.pending
    ensures var (t, result) := Commit(s, ticket);
            var p := s.pending[ticket];
            && result != NoTicket && t.pending == s.pending - {ticket} && t.nextTicket == s.nextTicket
            && if result.Committed?
               then Wrote(s, p, result.row, t.rows) && t.log == s.log + [Release(p.key, result.row, p.begun)]
                    && (|t.rows| > |s.rows| ==> p.change.Insert? && t.rows[|s.rows|] == p.change.row)
               else result == Conflict && t.rows == s.rows && t.log == s.log
  {
    hide ValidRules, LiveRows, Numbered, ReleasedValid, Count, PublishedOf, Taken;
    var p := s.pending[ticket];
    assert PendingOk(s, p);
    hide Inv;
    if p.change.Promote? {
      PromoteWrites(s, p, p.change.draft);
    }
  }

  lemma {:induction false} PromoteWrites(s: State, p: Pending, id: Id)
    requires id < |s.rows| && s.rows[id].key == p.key && ValidRules(s.rows[id].rules)
    ensures var retired := Retired(s.rows, p.superseded);
            Wrote(s, p, id, retired[id := PromotedRow(retired[id])])
  {
    hide ValidRules;
  }

  lemma {:induction false} SupersededOfKey(s: State, p: Pending)
    requires Inv(s) && PendingOk(s, p)
    ensures forall i | i in p.superseded :: i < |s.rows| && s.rows[i].key == p.key && s.rows[i].status != Draft
  {
    hide ValidRules, LiveRows, Numbered, ReleasedValid, Count;
    forall i | i in p.superseded
      ensures i < |s.rows| && s.rows[i].key == p.key && s.rows[i].status != Draft
    {
      var k :| 0 <= k < p.begun && s.log[..p.begun][k].key == p.key && s.log[..p.begun][k].row == i;
      assert ReleaseOk(s.rows, s.log[k]);
    }
  }

  lemma {:induction false} WrotePublished(s: State, p: Pending, n: Id, rows: seq<VersionRow>, key: PolicyKey)
    requires Wrote(s, p, n, rows) && forall i | i in p.superseded :: i < |s.rows| && s.rows[i].key == p.key
    ensures PublishedOf(rows, key, |rows|) ==
            if key == p.key then PublishedOf(s.rows, key, |s.rows|) - p.superseded + {n}
            else PublishedOf(s.rows, key, |s.rows|)
  {
    hide ValidRules, PublishedOf;
  }

  // --- When a commit is refused -----------------------------------------------

  /** The version a transaction computed is taken exactly when a row of the key was added since. */
  lemma {:induction false} TakenIff(rows: seq<VersionRow>, key: PolicyKey, known: nat)
    requires Numbered(rows) && known <= |rows|
    ensures Taken(rows, key, Count(rows, key, known) + 1) <==> exists i :: known <= i < |rows| && rows[i].key == key
  {
    hide Count;
    var v := Count(rows, key, known) + 1;
    CountMonotone(rows, key, known, |rows|);
    if exists i :: known <= i < |rows| && rows[i].key == key {
      var j := RowOf(rows, key, v, |rows|);
      assert rows[j].key == key && rows[j].version == v;
    }
    forall i | 0 <= i < |rows| && rows[i].key == key && rows[i].version == v
      ensures known <= i
    {
      assert NumberedAt(rows, i);
      if i < known {
        CountMonotone(rows, key, i, known);
      }
    }
  }

  lemma {:induction false} CountFlat(rows: seq<VersionRow>, key: PolicyKey, m: nat, n: nat)
    requires m <= n <= |rows| && forall i | m <= i < n :: rows[i].key != key
    ensures Count(rows, key, n) == Count(rows, key, m)
  {
    if m < n {
      CountFlat(rows, key, m, n - 1);
    }
  }

  /** Publishing is never refused at its commit; a rollback is refused exactly when a row of its key was added since it
      chose its version, and then nothing is written. */
  lemma {:induction false} ConflictIff(s: State, ticket: Id)
    requires Inv(s) && ticket in s.pending
    ensures var p := s.pending[ticket];
            Commit(s, ticket).1 == Conflict <==>
            p.change.Insert? && exists i :: p.known <= i < |s.rows| && s.rows[i].key == p.key
    ensures Commit(s, ticket).1 == Conflict ==> Commit(s, ticket).0 == s.(pending := s.pending - {ticket})
  {
    hide ValidRules, LiveRows, Numbered, ReleasedValid, Count, Taken, Commit, PublishedOf;
    var p := s.pending[ticket];
    assert PendingOk(s, p);
    TakenIff(s.rows, p.key, p.known);
    CommitRefuses(s, ticket);
  }

  lemma CommitRefuses(s: State, ticket: Id)
    requires ticket in s.pending
    ensures var p := s.pending[ticket];
            Commit(s, ticket).1 == Conflict <==>
            p.change.Insert? && Taken(s.rows, p.change.row.key, p.change.row.version)
    ensures Commit(s, ticket).1 == Conflict ==> Commit(s, ticket).0 == s.(pending := s.pending - {ticket})
  {
    hide Taken, Retired;
  }

  lemma {:induction false} CommitNumbers(s: State, ticket: Id)
    requires Inv(s) && ticket in s.pending && Commit(s, ticket).1.Committed?
    ensures Numbered(Commit(s, ticket).0.rows)
  {
    hide ValidRules, LiveRows, Numbered, ReleasedValid, Count, Commit;
    var p, rows := s.pending[ticket], Commit(s, ticket).0.rows;
    assert PendingOk(s, p);
    ConflictIff(s, ticket);
    CommitWrites(s, ticket);
    if |rows| > |s.rows| {
      CountFlat(s.rows, p.key, p.known, |s.rows|);
    }
    NumberedKept(s.rows, rows);
  }

  // --- The invariant ----------------------------------------------------------

  lemma {:induction false} CommitKeeps(s: State, ticket: Id)
    requires Inv(s) && ticket in s.pending
    ensures Inv(Commit(s, ticket).0)
  {
    hide Commit, ValidRules, LiveRows, Numbered, Count, PublishedOf, ReleasedValid;
    var (t, result) := Commit(s, ticket);
    var p := s.pending[ticket];
    assert PendingOk(s, p);
    CommitWrites(s, ticket);
    if result.Committed? {
      var n := result.row;
      SupersededOfKey(s, p);
      CommitNumbers(s, ticket);
      WroteValid(s, p, n, t.rows);
      forall key
        ensures PublishedOf(t.rows, key, |t.rows|) == LiveRows(t.log, key)
      {
        WrotePublished(s, p, n, t.rows, key);
        LiveNext(s.log, Release(p.key, n, p.begun), key);
      }
      LiveNext(s.log, Release(p.key, n, p.begun), p.key);
      hide Wrote;
      WroteReleases(s, p, n, t);
      WroteLogged(s, p, n, t);
      forall other | other in t.pending
        ensures PendingOk(t, t.pending[other])
      {
        assert RowsKept(s.rows, t.rows) by { WroteKeeps(s, p, n, t.rows); }
        PendingKept(s, t, s.pending[other]);
      }
    } else {
      forall other | other in t.pending
        ensures PendingOk(t, t.pending[other])
      {
        assert PendingOk(s, s.pending[other]);
      }
    }
  }

  lemma WroteKeeps(s: State, p: Pending, n: Id, rows: seq<VersionRow>)
    requires Wrote(s, p, n, rows)
    ensures RowsKept(s.rows, rows)
  {
    hide ValidRules;
  }

  lemma {:induction false} WroteReleases(s: State, p: Pending, n: Id, t: State)
    requires Wrote(s, p, n, t.rows) && t.log == s.log + [Release(p.key, n, p.begun)]
    requires forall k | 0 <= k < |s.log| :: ReleaseOk(s.rows, s.log[k])
    ensures forall k | 0 <= k < |t.log| :: ReleaseOk(t.rows, t.log[k])
  {
    hide ValidRules;
    forall k | 0 <= k < |t.log|
      ensures ReleaseOk(t.rows, t.log[k])
    {
      assert k < |s.log| ==> ReleaseOk(s.rows, s.log[k]);
    }
  }

  lemma {:induction false} WroteLogged(s: State, p: Pending, n: Id, t: State)
    requires Wrote(s, p, n, t.rows) && t.log == s.log + [Release(p.key, n, p.begun)]
    requires forall i | i in p.superseded :: i < |s.rows| && s.rows[i].status != Draft
    requires ReleasesLogged(s.rows, s.log)
    ensures ReleasesLogged(t.rows, t.log)
  {
    hide ValidRules, InLog;
    forall i: Id | i < |t.rows| && t.rows[i].status != Draft
      ensures InLog(t.log, i)
    {
      if i == n {
        LoggedLater(s.log, Release(p.key, n, p.begun), n);
      } else {
        LoggedLater(s.log, Release(p.key, n, p.begun), i);
      }
    }
  }

  lemma LoggedLater(log: seq<Release>, r: Release, i: Id)
    ensures InLog(log, i) || r.row == i ==> InLog(log + [r], i)
  {
    var all := log + [r];
    assert all[|log|] == r && forall k | 0 <= k < |log| :: all[k] == log[k];
  }

  lemma {:induction false} WroteValid(s: State, p: Pending, n: Id, rows: seq<VersionRow>)
    requires ReleasedValid(s.rows) && Wrote(s, p, n, rows)
    requires forall i | i in p.superseded :: i < |s.rows| && s.rows[i].status != Draft
    ensures ReleasedValid(rows)
  {
    hide ValidRules;
  }

  /** Rows may be added as drafts and checks recorded on drafts. */
  lemma {:induction false} RowsChanged(s: State, rows: seq<VersionRow>)
    requires Inv(s) && RowsKept(s.rows, rows) && Numbered(rows) && ReleasedValid(rows)
    requires forall i | 0 <= i < |s.rows| :: rows[i].status == s.rows[i].status
    requires |rows| > |s.rows| ==> rows[|s.rows|].status == Draft
    ensures Inv(s.(rows := rows))
  {
    hide ValidRules, LiveRows, Numbered, ReleasedValid, Count, PublishedOf;
    var t := s.(rows := rows);
    forall key
      ensures PublishedOf(rows, key, |rows|) == LiveRows(t.log, key)
    {
      assert PublishedOf(rows, key, |rows|) == PublishedOf(s.rows, key, |s.rows|);
    }
    forall k | 0 <= k < |t.log|
      ensures ReleaseOk(rows, t.log[k])
    {
      assert ReleaseOk(s.rows, s.log[k]);
    }
    forall ticket | ticket in t.pending
      ensures PendingOk(t, t.pending[ticket])
    {
      PendingKept(s, t, s.pending[ticket]);
    }
  }

  lemma {:induction false} CreateKeeps(s: State, key: PolicyKey, rules: seq<Rule>, source: Option<Id>)
    requires Inv(s)
    ensures Inv(s.(rows := Created(s.rows, key, rules, source)))
  {
    var rows := Created(s.rows, key, rules, source);
    MaxIsCount(s.rows, key);
    hide Inv, ValidRules, MaxVersion, Count;
    NumberedKept(s.rows, rows) by { assert Inv(s); NumberedIn(s); }
    CreatedValid(s, key, rules, source);
    RowsChanged(s, rows);
  }

  lemma NumberedIn(s: State)
    requires Inv(s)
    ensures Numbered(s.rows) && ReleasedValid(s.rows)
  {}

  lemma {:induction false} CreatedValid(s: State, key: PolicyKey, rules: seq<Rule>, source: Option<Id>)
    requires ReleasedValid(s.rows)
    ensures ReleasedValid(Created(s.rows, key, rules, source))
  {
    hide ValidRules, MaxVersion;
  }

  lemma {:induction false} CheckRecorded(s: State, id: Id, check: bool)
    requires Inv(s) && id < |s.rows| && s.rows[id].status == Draft
    ensures Inv(s.(rows := s.rows[id := s.rows[id].(check := Some(check))]))
  {
    hide ValidRules, Count, LiveRows, PublishedOf;
    var rows := s.rows[id := s.rows[id].(check := Some(check))];
    NumberedKept(s.rows, rows);
    RowsChanged(s, rows);
  }

  lemma {:induction false} OpenedKeeps(s: State, key: PolicyKey, change: Change)
    requires Inv(s)
    requires match change
             case Promote(id) => id < |s.rows| && s.rows[id].key == key && ValidRules(s.rows[id].rules)
             case Insert(row) =>
               && row.key == key && row.status == Published && row.check == Some(true) && ValidRules(row.rules)
               && row.version == Count(s.rows, key, |s.rows|) + 1
    ensures Inv(Opened(s, key, change).0)
  {
    hide ValidRules, LiveRows, Numbered, ReleasedValid, Count, PublishedOf;
    var t := Opened(s, key, change).0;
    assert s.log[..|s.log|] == s.log;
    forall ticket | ticket in t.pending
      ensures PendingOk(t, t.pending[ticket])
    {
      if ticket != s.nextTicket {
        assert PendingOk(s, s.pending[ticket]);
      }
    }
  }

  lemma {:induction false} StepKeepsInv(s: State, step: Step)
    requires Inv(s)
    ensures Inv(Take(s, step).0)
  {
    hide Inv, ValidRules, Commit, Created, Opened, MaxVersion, Count, FindTarget;
    NumberedIn(s);
    match step {
      case OpenDraft(project, draft) =>
        if IsDraft(s.rows, project, draft) {
          if ValidRules(s.rows[draft].rules) {
            OpenedKeeps(s, s.rows[draft].key, Promote(draft));
          } else {
            CheckRecorded(s, draft, false);
          }
        }
      case OpenVersion(key, version) =>
        var k := FindTarget(s.rows, key, version);
        MaxIsCount(s.rows, key);
        if k < |s.rows| && ValidRules(s.rows[k].rules) {
          OpenedKeeps(
            s, key, Insert(
              VersionRow(key, MaxVersion(s.rows, key) + 1, Published, s.rows[k].rules, Some(true), Some(k))));
        }
      case CommitStep(ticket) =>
        if ticket in s.pending {
          CommitKeeps(s, ticket);
        } else {
          NoCommit(s, ticket);
        }
      case CreateStep(key, rules, source) => CreateKeeps(s, key, rules, source);
      case CheckStep(project, draft) =>
        if IsDraft(s.rows, project, draft) {
          CheckRecorded(s, draft, ValidRules(s.rows[draft].rules));
        }
    }
  }

  lemma NoCommit(s: State, ticket: Id)
    requires ticket !in s.pending
    ensures Commit(s, ticket).0 == s
  {}

  lemma {:induction false} RunKeepsInv(s: State, steps: seq<Step>)
    requires Inv(s)
    ensures Inv(After(s, steps))
    decreases |steps|
  {
    hide Inv, Take;
    if steps != [] {
      StepKeepsInv(s, steps[0]);
      RunKeepsInv(Take(s, steps[0]).0, steps[1..]);
    }
  }

  lemma {:induction false} ReachableInv(steps: seq<Step>)
    ensures Inv(After(START, steps))
  {
    hide After, ValidRules;
    RunKeepsInv(START, steps);
  }

  // --- How many versions are published ----------------------------------------

  /** Another release of the key was committed since this transaction read. */
  ghost predicate Overtaken(s: State, p: Pending) {
    exists k :: p.begun <= k < |s.log| && s.log[k].key == p.key
  }

  /** No row was released twice: no two publishers read the same draft before either committed. */
  predicate OnceReleased(log: seq<Release>) { forall i, j | 0 <= i < j < |log| :: log[i].row != log[j].row }

  lemma {:induction false} LiveFlat(log: seq<Release>, key: PolicyKey, m: nat, n: nat)
    requires Ordered(log) && m <= n <= |log| && forall k | m <= k < n :: log[k].key != key
    ensures LiveRows(log[..n], key) == LiveRows(log[..m], key)
  {
    if m < n {
      LiveFlat(log, key, m, n - 1);
      assert log[..n] == log[..n - 1] + [log[n - 1]];
      LiveNext(log[..n - 1], log[n - 1], key);
    }
  }

  /** Of a key released once each, the latest release is still published, and was not before it. */
  lemma {:induction false} LatestLive(log: seq<Release>, key: PolicyKey, m: nat, n: nat) returns (last: nat)
    requires Ordered(log) && m < n <= |log| && log[m].key == key
    ensures m <= last < n && log[last].key == key && log[last].row in LiveRows(log[..n], key)
    decreases n
  {
    assert log[..n] == log[..n - 1] + [log[n - 1]];
    LiveNext(log[..n - 1], log[n - 1], key);
    if log[n - 1].key == key {
      last := n - 1;
    } else {
      last := LatestLive(log, key, m, n - 1);
    }
  }

  lemma {:induction false} NotYetLive(log: seq<Release>, key: PolicyKey, n: nat, k: nat)
    requires Ordered(log) && OnceReleased(log) && n <= k < |log|
    ensures log[k].row !in LiveRows(log[..n], key)
  {
    hide LiveRows;
    forall i | 0 <= i < n
      ensures log[..n][i].row != log[k].row
    {
      assert log[i].row != log[k].row;
    }
  }

  /** After a commit its row is published; it is the only one of its key exactly when no other row released since its
      read is still published. When no other publisher of the key committed since, it is the only one. */
  lemma {:induction false} CommitLeaves(s: State, ticket: Id)
    requires Inv(s) && ticket in s.pending && Commit(s, ticket).1.Committed?
    ensures var (t, result) := Commit(s, ticket);
            var p := s.pending[ticket];
            var others := PublishedOf(s.rows, p.key, |s.rows|) - p.superseded - {result.row};
            && PublishedOf(t.rows, p.key, |t.rows|) == others + {result.row}
            && (forall key | key != p.key ::
                  PublishedOf(t.rows, key, |t.rows|) == PublishedOf(s.rows, key, |s.rows|))
            && (!Overtaken(s, p) ==> others == {})
  {
    hide Commit, ValidRules, LiveRows, Numbered, Count, PublishedOf, ReleasedValid, Wrote;
    var (t, result) := Commit(s, ticket);
    var p := s.pending[ticket];
    assert PendingOk(s, p);
    CommitWrites(s, ticket);
    SupersededOfKey(s, p);
    forall key
      ensures PublishedOf(t.rows, key, |t.rows|) ==
              if key == p.key then PublishedOf(s.rows, key, |s.rows|) - p.superseded + {result.row}
              else PublishedOf(s.rows, key, |s.rows|)
    {
      WrotePublished(s, p, result.row, t.rows, key);
    }
    if !Overtaken(s, p) {
      LiveFlat(s.log, p.key, p.begun, |s.log|);
      assert s.log[..|s.log|] == s.log;
    }
  }

  /** The latest release of a key was overtaken: another release of the key was committed since it read. */
  ghost predicate LastOvertaken(log: seq<Release>, key: PolicyKey) {
    exists m, n :: 0 <= m < n < |log| && OvertakenBy(log, key, m, n)
  }

  predicate OvertakenBy(log: seq<Release>, key: PolicyKey, m: nat, n: nat)
    requires m < n < |log|
  {
    && log[m].key == log[n].key == key && log[n].begun <= m
    && forall k | n < k < |log| :: log[k].key != key
  }

  lemma {:induction false} LastRelease(log: seq<Release>, key: PolicyKey, n: nat) returns (last: nat)
    requires n <= |log|
    ensures last <= n && (last < n ==> log[last].key == key)
    ensures forall k | (if last < n then last + 1 else 0) <= k < n :: log[k].key != key
  {
    if n == 0 {
      last := 0;
    } else if log[n - 1].key == key {
      last := n - 1;
    } else {
      last := LastRelease(log, key, n - 1);
      if last == n - 1 {
        last := n;
      }
    }
  }

  /** What the latest release of a key leaves published. */
  lemma {:induction false} LiveAtLast(log: seq<Release>, key: PolicyKey, n: nat)
    requires Ordered(log) && n < |log| && log[n].key == key && forall k | n < k < |log| :: log[k].key != key
    ensures LiveRows(log, key) == LiveRows(log[..n], key) - LiveRows(log[..log[n].begun], key) + {log[n].row}
  {
    hide LiveRows;
    LiveFlat(log, key, n + 1, |log|);
    assert log[..|log|] == log && log[..n + 1] == log[..n] + [log[n]];
    assert log[..n][..log[n].begun] == log[..log[n].begun];
    LiveNext(log[..n], log[n], key);
  }

  /** In every run in which no row is released twice: two versions of a key are published exactly when the latest
      publisher of the key committed after another one that committed since its read. */
  lemma {:induction false} TwoPublishedIff(steps: seq<Step>, key: PolicyKey)
    requires OnceReleased(After(START, steps).log)
    ensures var s := After(START, steps);
            (exists i, j :: i != j && IsLive(s.rows, key, i) && IsLive(s.rows, key, j)) <==> LastOvertaken(s.log, key)
  {
    ReachableInv(steps);
    hide After, PublishedOf, ValidRules, LiveRows, Numbered, ReleasedValid;
    var s := After(START, steps);
    TwoLiveIff(s.log, key);
    var rows := PublishedOf(s.rows, key, |s.rows|);
    assert rows == LiveRows(s.log, key);
    assert forall i :: IsLive(s.rows, key, i) <==> i >= 0 && i in rows;
  }

  lemma {:induction false} TwoLiveIff(log: seq<Release>, key: PolicyKey)
    requires Ordered(log) && OnceReleased(log)
    ensures (exists i, j :: i != j && i in LiveRows(log, key) && j in LiveRows(log, key)) <==> LastOvertaken(log, key)
  {
    hide LiveRows, OvertakenBy;
    var n := LastRelease(log, key, |log|);
    if n < |log| {
      LiveAtLast(log, key, n);
      if m: nat :| log[n].begun <= m < n && log[m].key == key {
        assert OvertakenBy(log, key, m, n) by { Overtakes(log, key, m, n); }
        var last := LatestLive(log, key, m, n);
        NotYetLive(log, key, log[n].begun, last);
        assert log[last].row != log[n].row;
        assert log[last].row in LiveRows(log, key) && log[n].row in LiveRows(log, key);
      } else {
        LiveFlat(log, key, log[n].begun, n);
        NotOvertaken(log, key, n);
      }
    } else {
      NothingLive(log, key);
    }
  }

  lemma Overtakes(log: seq<Release>, key: PolicyKey, m: nat, n: nat)
    requires m < n < |log| && log[m].key == log[n].key == key && log[n].begun <= m
    requires forall k | n < k < |log| :: log[k].key != key
    ensures OvertakenBy(log, key, m, n)
  {}

  lemma {:induction false} NotOvertaken(log: seq<Release>, key: PolicyKey, n: nat)
    requires n < |log| && log[n].key == key && forall k | n < k < |log| :: log[k].key != key
    requires forall m | log[n].begun <= m < n :: log[m].key != key
    ensures !LastOvertaken(log, key)
  {
    forall m: nat, k: nat | m < k < |log|
      ensures !OvertakenBy(log, key, m, k)
    {
    }
  }

  lemma {:induction false} NothingLive(log: seq<Release>, key: PolicyKey)
    requires Ordered(log) && forall k | 0 <= k < |log| :: log[k].key != key
    ensures LiveRows(log, key) == {} && !LastOvertaken(log, key)
  {
    hide LiveRows;
  }

  /** A row is released twice exactly when a publisher commits a draft that is no draft any more; it may then come back
      after having been superseded. */
  lemma {:induction false} ReleasedAgainIff(s: State, ticket: Id)
    requires Inv(s) && OnceReleased(s.log) && ticket in s.pending && Commit(s, ticket).1.Committed?
    ensures var change := s.pending[ticket].change;
            OnceReleased(Commit(s, ticket).0.log) <==>
            (change.Promote? && change.draft < |s.rows| ==> s.rows[change.draft].status == Draft)
  {
    hide Commit, ValidRules, LiveRows, Numbered, Count, PublishedOf, ReleasedValid, Wrote;
    var (t, result) := Commit(s, ticket);
    CommitWrites(s, ticket);
    CommittedRow(s, ticket);
    var n := |s.log|;
    assert t.log[n].row == result.row && forall k | 0 <= k < n :: t.log[k] == s.log[k];
    assert forall k | 0 <= k < n :: ReleaseOk(s.rows, s.log[k]);
    assert InLog(s.log, result.row) <==> result.row < |s.rows| && s.rows[result.row].status != Draft;
  }

  lemma CommittedRow(s: State, ticket: Id)
    requires ticket in s.pending && Commit(s, ticket).1.Committed?
    ensures var change := s.pending[ticket].change;
            Commit(s, ticket).1.row == (if change.Promote? then change.draft else |s.rows|)
    ensures s.pending[ticket].change.Promote? ==> s.pending[ticket].change.draft < |s.rows|
  {}

  // --- Which version is served ------------------------------------------------

  /** The policy just published is the one served exactly when no version left published beside it is higher. */
  lemma {:induction false} ServedIff(s: State, ticket: Id)
    requires Inv(s) && ticket in s.pending && Commit(s, ticket).1.Committed?
    ensures var (t, result) := Commit(s, ticket);
            var p := s.pending[ticket];
            result.row < |t.rows|
            && (Latest(t.rows, p.key) == Some(result.row) <==>
                  forall i | i in PublishedOf(s.rows, p.key, |s.rows|) - p.superseded ::
                    s.rows[i].version <= t.rows[result.row].version)
  {
    hide Commit, ValidRules, LiveRows, Numbered, Count, PublishedOf, ReleasedValid, Latest;
    var (t, result) := Commit(s, ticket);
    var p := s.pending[ticket];
    CommitWrites(s, ticket);
    CommitLeaves(s, ticket);
    CommitNumbers(s, ticket);
    LatestIsLive(t.rows, p.key);
    assert IsLive(t.rows, p.key, result.row);
    var served := Latest(t.rows, p.key).value;
    assert served in PublishedOf(t.rows, p.key, |t.rows|);
    if t.rows[served].version == t.rows[result.row].version {
      VersionsDistinct(t.rows, served, result.row);
    }
  }

  // --- Without interleaving ---------------------------------------------------

  lemma {:induction false} RetiredPublished(rows: seq<VersionRow>, key: PolicyKey)
    ensures Retired(rows, PublishedOf(rows, key, |rows|)) == SupersedeCurrent(rows, key)
  {
    hide PublishedOf;
  }

  /** A publisher that commits right after it read does what publishing in one step does. */
  lemma {:induction false} SerialPublish(s: State, project: Id, id: Id)
    ensures var (t, begun) := BeginPublish(s, project, id);
            var (rows, outcome) := Publish(s.rows, project, id);
            if begun.Begun?
            then Commit(t, begun.ticket).0.rows == rows && Commit(t, begun.ticket).1 == Committed(id)
              && outcome == Done(id)
            else t.rows == rows && begun == Refused(outcome)
  {
    hide ValidRules, PublishedOf;
    if IsDraft(s.rows, project, id) {
      RetiredPublished(s.rows, s.rows[id].key);
    }
  }

  /** The same for a rollback. */
  lemma {:induction false} SerialRollback(s: State, key: PolicyKey, version: nat)
    requires Numbered(s.rows)
    ensures var (t, begun) := BeginRollback(s, key, version);
            var (rows, outcome) := RolledBack(s.rows, key, version);
            if begun.Begun?
            then Commit(t, begun.ticket).0.rows == rows && outcome == Done(|s.rows|)
                 && Commit(t, begun.ticket).1 == Committed(|s.rows|)
            else t.rows == rows && begun == Refused(outcome)
  {
    hide ValidRules, PublishedOf, MaxVersion, FindTarget, Taken, Numbered, Count, Commit, Opened, SupersedeCurrent;
    MaxFrame(s.rows, SupersedeCurrent(s.rows, key), key) by { SameVersions(s.rows, key); }
    MaxIsCount(s.rows, key);
    TakenIff(s.rows, key, |s.rows|);
    var k := FindTarget(s.rows, key, version);
    if k < |s.rows| {
      var next := MaxVersion(s.rows, key) + 1;
      SerialInsert(s, VersionRow(key, next, Published, s.rows[k].rules, Some(true), Some(k)));
    }
  }

  lemma SameVersions(rows: seq<VersionRow>, key: PolicyKey)
    ensures forall i | 0 <= i < |rows| ::
              SupersedeCurrent(rows, key)[i].key == rows[i].key
                && SupersedeCurrent(rows, key)[i].version == rows[i].version
  {}

  lemma {:induction false} SerialInsert(s: State, row: VersionRow)
    requires !Taken(s.rows, row.key, row.version)
    ensures var (t, begun) := Opened(s, row.key, Insert(row));
            && begun == Begun(s.nextTicket)
            && Commit(t, s.nextTicket).0.rows == SupersedeCurrent(s.rows, row.key) + [row]
            && Commit(t, s.nextTicket).1 == Committed(|s.rows|)
  {
    hide ValidRules, PublishedOf, Taken, Retired, SupersedeCurrent;
    RetiredPublished(s.rows, row.key);
  }

  /** The race: of any two valid drafts of a key, both stay published when each publisher reads before the other
      commits. */
  lemma {:induction false} RaceLeavesBoth(s: State, project: Id, d: Id, e: Id)
    requires d != e && IsDraft(s.rows, project, d) && IsDraft(s.rows, project, e)
    requires s.rows[d].key == s.rows[e].key && ValidRules(s.rows[d].rules) && ValidRules(s.rows[e].rules)
    ensures var s1 := BeginPublish(s, project, d).0;
            var s2 := BeginPublish(s1, project, e).0;
            var (s3, first) := Commit(s2, s.nextTicket);
            var (s4, second) := Commit(s3, s.nextTicket + 1);
            && first == Committed(d) && second == Committed(e)
            && IsLive(s4.rows, s.rows[d].key, d) && IsLive(s4.rows, s.rows[d].key, e)
  {
    hide ValidRules, PublishedOf, Commit;
    var key := s.rows[d].key;
    var s2 := BeginPublish(BeginPublish(s, project, d).0, project, e).0;
    assert s2.rows == s.rows && s.nextTicket in s2.pending && s.nextTicket + 1 in s2.pending;
    assert s2.pending[s.nextTicket].change == Promote(d) && s2.pending[s.nextTicket + 1].change == Promote(e);
    DraftsUnpublished(s.rows, key, d);
    DraftsUnpublished(s.rows, key, e);
    hide BeginPublish;
    CommitPromotes(s2, s.nextTicket, d);
    CommitPromotes(Commit(s2, s.nextTicket).0, s.nextTicket + 1, e);
  }

  lemma DraftsUnpublished(rows: seq<VersionRow>, key: PolicyKey, id: Id)
    requires id < |rows| && rows[id].status == Draft
    ensures id !in PublishedOf(rows, key, |rows|)
  {
    hide PublishedOf;
  }

  lemma {:induction false} CommitPromotes(s: State, ticket: Id, id: Id)
    requires ticket in s.pending && s.pending[ticket].change == Promote(id) && id < |s.rows|
    ensures var (t, result) := Commit(s, ticket);
            && result == Committed(id) && |t.rows| == |s.rows| && t.pending == s.pending - {ticket}
            && t.rows[id].key == s.rows[id].key && t.rows[id].status == Published
            && (forall i | 0 <= i < |s.rows| && i != id && i !in s.pending[ticket].superseded :: t.rows[i] == s.rows[i])
  {
    hide ValidRules;
  }
}
