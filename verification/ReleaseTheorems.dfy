/** What publishing a prompt release means for its label, from the request to the lookup. */
module ReleaseTheorems {
  import opened Common
  import opened Characters
  import opened PromptReleases

  // --- Labels -----------------------------------------------------------------------------------

  /** The same character, or the two cases of one ASCII letter. */
  predicate SameLetter(c: char, d: char) {
    || c == d
    || ('A' <= c <= 'Z' && d as int == c as int + 32)
    || ('A' <= d <= 'Z' && c as int == d as int + 32)
  }

  predicate SameLetters(s: string, t: string) { |s| == |t| && forall i | 0 <= i < |s| :: SameLetter(s[i], t[i]) }

  lemma SameLower(s: string, t: string)
    requires SameLetters(s, t)
    ensures Lower(s) == Lower(t)
  {
    hide SameLetter, LowerChar;
    forall i | 0 <= i < |s|
      ensures Lower(s)[i] == Lower(t)[i]
    {
      SameLowerChar(s[i], t[i]);
    }
  }

  lemma SameLowerChar(c: char, d: char)
    requires SameLetter(c, d)
    ensures LowerChar(c) == LowerChar(d)
  {}

  lemma {:induction false} StripSame(s: string, t: string)
    requires SameLetters(s, t)
    ensures SameLetters(Strip(s), Strip(t))
  {
    LeadingSame(s, t);
    TrailingSame(Lstrip(s), Lstrip(t));
  }

  lemma {:induction false} LeadingSame(s: string, t: string)
    requires SameLetters(s, t)
    ensures LeadingSpaces(s) == LeadingSpaces(t)
  {
    if s != "" && IsSpace(s[0]) {
      LeadingSame(s[1..], t[1..]);
    }
  }

  lemma {:induction false} TrailingSame(s: string, t: string)
    requires SameLetters(s, t)
    ensures TrailingSpaces(s) == TrailingSpaces(t)
  {
    var n := |s| - 1;
    if s != "" && IsSpace(s[n]) {
      TrailingSame(s[..n], t[..n]);
    }
  }

  lemma {:induction false} StripInner(a: string, s: string, b: string)
    requires AllSpace(a) && AllSpace(b)
    ensures Strip(a + s + b) == Strip(s)
  {
    StripBefore(a, s + b);
    assert a + s + b == a + (s + b);
    StripAfter(s, b);
  }

  lemma {:induction false} LeadingAfter(a: string, s: string)
    requires AllSpace(a)
    ensures LeadingSpaces(a + s) == |a| + LeadingSpaces(s)
  {
    if a == "" {
      assert a + s == s;
    } else {
      assert (a + s)[1..] == a[1..] + s;
      LeadingAfter(a[1..], s);
    }
  }

  lemma {:induction false} StripBefore(a: string, s: string)
    requires AllSpace(a)
    ensures Strip(a + s) == Strip(s)
  {
    hide LeadingSpaces, AllSpace, IsSpace, Rstrip;
    LeadingAfter(a, s);
    assert Lstrip(a + s) == Lstrip(s);
  }

  lemma {:induction false} StripAfter(s: string, b: string)
    requires AllSpace(b)
    ensures Strip(s + b) == Strip(s)
  {
    if AllSpace(s) {
      StripEmpty(s);
      StripEmpty(s + b);
    } else {
      LeadingBefore(s, b);
      assert Lstrip(s + b) == Lstrip(s) + b;
      RstripAfter(Lstrip(s), b);
    }
  }

  lemma {:induction false} LeadingBefore(s: string, b: string)
    requires !AllSpace(s)
    ensures LeadingSpaces(s + b) == LeadingSpaces(s)
  {
    if IsSpace(s[0]) {
      assert (s + b)[1..] == s[1..] + b;
      LeadingBefore(s[1..], b);
    }
  }

  lemma {:induction false} RstripAfter(s: string, b: string)
    requires AllSpace(b)
    ensures Rstrip(s + b) == Rstrip(s)
  {
    if b == "" {
      assert s + b == s;
    } else {
      var n := |b| - 1;
      assert (s + b)[..|s| + n] == s + b[..n];
      RstripAfter(s, b[..n]);
      assert TrailingSpaces(s + b) == 1 + TrailingSpaces(s + b[..n]);
    }
  }

  /** Labels that differ only in the case of letters and in surrounding whitespace have one normal form, and a trimmed
      label without capital letters is its own. */
  lemma {:induction false} NormalForm(a: string, s: string, b: string, t: string)
    requires AllSpace(a) && AllSpace(b) && SameLetters(s, t)
    ensures NormalizePart(a + s + b) == NormalizePart(t)
    ensures Trimmed(t) && (forall i | 0 <= i < |t| :: !('A' <= t[i] <= 'Z')) ==> NormalizePart(t) == t
  {
    hide IsSpace, SameLetters, AllSpace, Strip;
    StripInner(a, s, b);
    StripSame(s, t);
    SameLower(Strip(s), Strip(t));
    if Trimmed(t) {
      StripOfTrimmed(t);
    }
  }

  /** However a protected label is spelled, it is protected. */
  lemma {:induction false} ProtectedHoweverSpelled(a: string, s: string, b: string, t: string)
    requires AllSpace(a) && AllSpace(b) && SameLetters(s, t) && t in {"production", "staging", "latest"}
    ensures IsProtected(NormalizePart(a + s + b))
  {
    hide SameLetters, AllSpace, NormalizePart, Strip;
    NormalForm(a, s, b, t);
  }

  // --- When publishing begins ----------------------------------------------------------------------

  /** An active version of this name, of the active template of the project with this reference. */
  predicate Offers(s: State, v: int, request: PublishRequest) {
    && 0 <= v < |s.versions|
    && var row := s.versions[v];
    && row.project == request.project && row.version == request.version && row.active
    && row.template < |s.templates|
    && s.templates[row.template] == Template(request.project, request.templateRef, true)
  }

  /** A publisher gets to its writes exactly when label and environment are not blank, the version is offered and, for a
      protected label, the named eval run of the project is completed and meets every threshold. */
  lemma {:induction false} BeginsIff(s: State, request: PublishRequest)
    ensures Begin(s, request).1.Begun? <==>
            && !AllSpace(request.tag) && !AllSpace(request.environment)
            && (exists v :: Offers(s, v, request))
            && (NormalizePart(request.tag) in {"production", "staging", "latest"} ==>
                  && request.evalRun.Some? && request.evalRun.value in s.evalRuns
                  && var run := s.evalRuns[request.evalRun.value];
                     && run.project == request.project && run.completed && run.caseCount >= 1
                     && run.leakageCount <= 0 && run.deletedVisibleCount <= 0
                     && run.recallAtK >= 0.8 && run.mrr >= 0.5 && run.contextRecall >= 0.8)
  {
    BlankParts(request.tag);
    BlankParts(request.environment);
    hide NormalizePart, AllSpace, ActiveOf;
    var k := FindVersion(s, request.project, request.templateRef, request.version, 0);
    assert k < |s.versions| ==> Offers(s, k, request);
    forall v | Offers(s, v, request)
      ensures k < |s.versions|
    {
      assert VersionServes(s, v, request.project, request.templateRef);
    }
  }

  lemma {:induction false} BlankParts(s: string)
    ensures NormalizePart(s) == "" <==> AllSpace(s)
  {
    hide Strip, AllSpace;
    StripEmpty(s);
    assert |Lower(Strip(s))| == |Strip(s)|;
  }

  // --- From the request to the lookup ----------------------------------------------------------------

  /** A publisher that commits right after its checks succeeds, and from then on the label, however it is spelled, names
      the version of the request. */
  lemma {:induction false} PublishedIsServed(
    steps: seq<Step>, request: PublishRequest, tag: string, environment: string) returns (v: nat)
    requires Begin(Run(EMPTY, steps), request).1.Begun?
    requires NormalizePart(tag) == NormalizePart(request.tag)
             && NormalizePart(environment) == NormalizePart(request.environment)
    ensures var s := Run(EMPTY, steps);
            var (after, outcome) := Commit(Begin(s, request).0, s.nextTicket);
            && outcome == Committed && Offers(s, v, request)
            && Lookup(after, request.project, request.templateRef, tag, environment, |after.releases|) == Some(v)
  {
    hide Run, Begin, Commit, Lookup, NormalizePart, Inv;
    ReachableInv(steps);
    var s := Run(EMPTY, steps);
    v := BegunFields(s, request);
    var s1 := Begin(s, request).0;
    BeginKeeps(s, request);
    CommitsAtOnce(s1, s.nextTicket);
    var after := Commit(s1, s.nextTicket).0;
    CommitKeeps(s1, s.nextTicket);
    CommittedFields(s1, s.nextTicket);
    LookupOfKey(after, |s.releases|, tag, environment);
  }

  lemma {:induction false} BegunFields(s: State, request: PublishRequest) returns (v: nat)
    requires Begin(s, request).1.Begun?
    ensures Offers(s, v, request) && s.nextTicket in Begin(s, request).0.pending
    ensures var after := Begin(s, request).0;
            var p := after.pending[s.nextTicket];
            && after.releases == s.releases && after.versions == s.versions && after.templates == s.templates
            && p.begun == |s.releases|
            && p.release.key.project == request.project && p.release.templateRef == request.templateRef
            && p.release.key.tag == NormalizePart(request.tag)
            && p.release.key.environment == NormalizePart(request.environment)
            && p.release.key.template == s.versions[v].template
            && p.release.version == v && p.release.active && p.release.evalRun == request.evalRun
  {
    hide NormalizePart, GateOpen, ActiveOf, IsProtected;
    v := FindVersion(s, request.project, request.templateRef, request.version, 0);
  }

  lemma {:induction false} CommitsAtOnce(s: State, ticket: Id)
    requires Inv(s) && ticket in s.pending && s.pending[ticket].begun == |s.releases|
    ensures Commit(s, ticket).1 == Committed
  {
    hide Inv, Commit;
    ConflictIff(s, ticket);
    CommitOutcomes(s, ticket);
  }

  lemma {:induction false} CommittedFields(s: State, ticket: Id)
    requires ticket in s.pending && Commit(s, ticket).1 == Committed
    ensures var after := Commit(s, ticket).0;
            && after.versions == s.versions && after.templates == s.templates
            && |after.releases| == |s.releases| + 1
            && after.releases[|s.releases|] == s.pending[ticket].release
            && LastBefore(after.releases, s.pending[ticket].release.key, |s.releases|, |after.releases|)
  {
    KeysKept(s, ticket);
  }

  /** A commit changes what is served under its own label, environment and template only. */
  lemma {:induction false} OtherLabelsKeep(
    steps: seq<Step>, ticket: Id, project: Id, templateRef: string, tag: string, environment: string)
    requires ticket in Run(EMPTY, steps).pending
    requires var r := Run(EMPTY, steps).pending[ticket].release;
             (r.key.project, r.templateRef, r.key.tag, r.key.environment)
             != (project, templateRef, NormalizePart(tag), NormalizePart(environment))
    ensures var s := Run(EMPTY, steps);
            var after := Commit(s, ticket).0;
            Lookup(after, project, templateRef, tag, environment, |after.releases|)
            == Lookup(s, project, templateRef, tag, environment, |s.releases|)
  {
    hide Run, Commit, Lookup, NormalizePart, Inv, PendingOk;
    ReachableInv(steps);
    var s := Run(EMPTY, steps);
    var after := Commit(s, ticket).0;
    if Commit(s, ticket).1 == Committed {
      OthersServe(s, ticket, project, templateRef, tag, environment);
      NotServing(after, |s.releases|, project, templateRef, tag, environment);
      SameLookup(s, after, project, templateRef, tag, environment, |s.releases|);
    } else {
      CommitOutcomes(s, ticket);
      ConflictIff(s, ticket);
      SameLookup(s, after, project, templateRef, tag, environment, |s.releases|);
    }
  }

  lemma NotServing(s: State, n: nat, project: Id, templateRef: string, tag: string, environment: string)
    requires |s.releases| == n + 1 && !ReleaseServes(s, n, project, templateRef, tag, environment)
    ensures Lookup(s, project, templateRef, tag, environment, n + 1)
         == Lookup(s, project, templateRef, tag, environment, n)
  {
    hide ReleaseServes;
  }

  lemma {:induction false} SameLookup(
    a: State, b: State, project: Id, templateRef: string, tag: string, environment: string, n: nat)
    requires n <= |a.releases| && n <= |b.releases|
    requires forall i | 0 <= i < n :: b.releases[i].version == a.releases[i].version
               && (ReleaseServes(b, i, project, templateRef, tag, environment) <==>
                   ReleaseServes(a, i, project, templateRef, tag, environment))
    ensures Lookup(b, project, templateRef, tag, environment, n)
         == Lookup(a, project, templateRef, tag, environment, n)
  {
    hide ReleaseServes;
    if n > 0 {
      SameLookup(a, b, project, templateRef, tag, environment, n - 1);
    }
  }

  lemma {:induction false} OthersServe(
    s: State, ticket: Id, project: Id, templateRef: string, tag: string, environment: string)
    requires Inv(s) && ticket in s.pending && Commit(s, ticket).1 == Committed
    requires var r := s.pending[ticket].release;
             (r.key.project, r.templateRef, r.key.tag, r.key.environment)
             != (project, templateRef, NormalizePart(tag), NormalizePart(environment))
    ensures var after := Commit(s, ticket).0;
            && |after.releases| == |s.releases| + 1
            && !ReleaseServes(after, |s.releases|, project, templateRef, tag, environment)
            && forall i | 0 <= i < |s.releases| ::
                 && after.releases[i].version == s.releases[i].version
                 && (ReleaseServes(after, i, project, templateRef, tag, environment) <==>
                     ReleaseServes(s, i, project, templateRef, tag, environment))
  {
    hide NormalizePart, UniqueActive, ActiveIsLast, EvidenceOk;
    KeysKept(s, ticket);
    var p := s.pending[ticket];
    assert PendingOk(s, p);
    forall i: nat | i < |s.releases|
      ensures i in p.archived ==>
                s.releases[i].key == p.release.key && s.releases[i].templateRef == p.release.templateRef
    {
      assert ReleaseOk(s, s.releases[i]);
    }
  }
}
