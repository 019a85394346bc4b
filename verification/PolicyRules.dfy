/** Approval policy rules: first-match evaluation, the approval floor, and the one-pass validator. */
module PolicyRules {
  import opened Common
  import opened Characters
  import opened MatchSignature

  datatype TargetKind = ToolInvocation | ShellExecution | ModelInvocation

  datatype RiskLevel = Low | Medium | High | Critical

  datatype Action = Allow | RequireApproval | Deny

  datatype Scope = Scope(
    toolGroups: seq<string>,
    tools: seq<string>,
    shellTemplates: seq<string>,
    modelPolicies: seq<string>,
    environments: seq<string>
  )

  datatype Rule = Rule(id: string, kind: TargetKind, action: Action, risks: seq<RiskLevel>, scope: Scope)

  datatype Policy = Policy(version: nat, rules: seq<Rule>)

  datatype Request = Request(
    kind: TargetKind,
    risk: RiskLevel,
    toolGroups: seq<string>,
    tool: string,
    shellTemplate: string,
    modelPolicy: string,
    environment: string,
    defaultApproval: bool
  )

  datatype Decision = Allowed | Denied | ApprovalRequired

  datatype Verdict = Verdict(decision: Decision, ruleRef: string, version: Option<nat>)

  predicate IsHigh(risk: RiskLevel) { risk == High || risk == Critical }

  // --- Evaluation -------------------------------------------------------------------

  predicate Meets(refs: seq<string>, given: seq<string>) {
    refs == [] || exists i | 0 <= i < |given| :: given[i] in refs
  }

  predicate InScope(scope: Scope, request: Request) {
    && Admits(scope.environments, request.environment)
    && Meets(scope.toolGroups, request.toolGroups)
    && Admits(scope.tools, request.tool)
    && Admits(scope.shellTemplates, request.shellTemplate)
    && Admits(scope.modelPolicies, request.modelPolicy)
  }

  predicate RuleMatches(rule: Rule, request: Request) {
    rule.kind == request.kind && request.risk in rule.risks && InScope(rule.scope, request)
  }

  /** The position of the first rule that matches, or the number of rules. */
  function FirstMatch(rules: seq<Rule>, request: Request): (k: nat)
    ensures k <= |rules|
    ensures forall i | 0 <= i < k :: !RuleMatches(rules[i], request)
    ensures k < |rules| ==> RuleMatches(rules[k], request)
  {
    if rules == [] || RuleMatches(rules[0], request) then 0 else 1 + FirstMatch(rules[1..], request)
  }

  function PlainDecision(action: Action): Decision {
    match action
    case Deny => Denied
    case RequireApproval => ApprovalRequired
    case Allow => Allowed
  }

  function DecisionFromRule(rule: Rule, request: Request): Decision {
    var decision := PlainDecision(rule.action);
    if decision == Allowed && IsHigh(request.risk) then ApprovalRequired else decision
  }

  function Evaluate(policy: Option<Policy>, request: Request): Verdict {
    var rules := if policy.Some? then policy.value.rules else [];
    var version := if policy.Some? then Some(policy.value.version) else None;
    var k := FirstMatch(rules, request);
    if k < |rules| then Verdict(DecisionFromRule(rules[k], request), rules[k].id, version)
    else if request.defaultApproval || IsHigh(request.risk) then
      Verdict(ApprovalRequired, "default_approval_floor", version)
    else Verdict(Allowed, "default_allow", version)
  }

  /** A rule decides a request when it matches and no earlier rule does. */
  ghost predicate Decides(rules: seq<Rule>, i: int, request: Request) {
    && 0 <= i < |rules|
    && RuleMatches(rules[i], request)
    && forall j | 0 <= j < i :: !RuleMatches(rules[j], request)
  }

  /** Both directions of every outcome, in terms of the deciding rule only. */
  lemma EvaluateMeaning(policy: Option<Policy>, request: Request)
    ensures var rules := if policy.Some? then policy.value.rules else [];
            var decision := Evaluate(policy, request).decision;
            && (decision == Denied <==> exists i :: Decides(rules, i, request) && rules[i].action == Deny)
            && (decision == Allowed <==>
                  && !IsHigh(request.risk)
                  && ((exists i :: Decides(rules, i, request) && rules[i].action == Allow)
                      || (!request.defaultApproval && forall i | 0 <= i < |rules| :: !RuleMatches(rules[i], request))))
    ensures var rules := if policy.Some? then policy.value.rules else [];
            var verdict := Evaluate(policy, request);
            && verdict.version == (if policy.Some? then Some(policy.value.version) else None)
            && (forall i | Decides(rules, i, request) :: verdict.ruleRef == rules[i].id)
            && ((forall i | 0 <= i < |rules| :: !RuleMatches(rules[i], request)) ==>
                  verdict.ruleRef ==
                  if request.defaultApproval || IsHigh(request.risk) then "default_approval_floor" else "default_allow")
  {
    var rules := if policy.Some? then policy.value.rules else [];
    var k := FirstMatch(rules, request);
    assert k < |rules| ==> Decides(rules, k, request);
    assert forall i :: Decides(rules, i, request) ==> i == k;
  }

  /** The approval floor: no policy, published or missing, valid or not, lowers high or critical risk to allowed. */
  lemma FloorHolds(policy: Option<Policy>, request: Request)
    requires IsHigh(request.risk)
    ensures Evaluate(policy, request).decision != Allowed
    ensures policy.None? ==> Evaluate(policy, request).decision == ApprovalRequired
  {}

  // --- Validity -----------------------------------------------------------------------

  function RuleLists(rule: Rule): seq<seq<string>> {
    [rule.scope.toolGroups, rule.scope.tools, rule.scope.shellTemplates, rule.scope.modelPolicies,
     rule.scope.environments]
  }

  function RuleSignature(rule: Rule): string { Signature(RuleLists(rule)) }

  predicate DistinctIds(rules: seq<Rule>) {
    forall i, j | 0 <= i < j < |rules| :: rules[i].id != rules[j].id
  }

  predicate AllowsHigh(rule: Rule) {
    rule.action == Allow && (High in rule.risks || Critical in rule.risks)
  }

  predicate KeepsFloor(rules: seq<Rule>) {
    forall i | 0 <= i < |rules| :: !AllowsHigh(rules[i])
  }

  predicate Clash(a: Rule, b: Rule) {
    && a.kind == b.kind
    && RuleSignature(a) == RuleSignature(b)
    && a.action != b.action
    && exists i | 0 <= i < |a.risks| :: a.risks[i] in b.risks
  }

  predicate NoClash(rules: seq<Rule>) {
    forall i, j | 0 <= i < j < |rules| :: !Clash(rules[i], rules[j])
  }

  predicate ValidRules(rules: seq<Rule>) {
    DistinctIds(rules) && KeepsFloor(rules) && NoClash(rules)
  }

  datatype IssueCode = DuplicateRuleId | HighRiskFloor | ConflictingRule

  datatype Issue = Issue(code: IssueCode, ruleId: string)

  ghost predicate Reports(issues: seq<Issue>, code: IssueCode) {
    exists i | 0 <= i < |issues| :: issues[i].code == code
  }

  lemma ReportsOneMore(issues: seq<Issue>, issue: Issue)
    ensures forall code :: Reports(issues + [issue], code) <==> Reports(issues, code) || code == issue.code
  {
    var more := issues + [issue];
    forall code
      ensures Reports(more, code) <==> Reports(issues, code) || code == issue.code
    {
      assert more[|issues|] == issue;
      if Reports(issues, code) {
        var i :| 0 <= i < |issues| && issues[i].code == code;
        assert more[i].code == code;
      }
    }
  }

  type Key = (TargetKind, RiskLevel, string)

  /** What one pass has written for each key: the pairs (key, action) met so far. */
  ghost predicate Agree(met: set<(Key, Action)>) {
    forall a, b | a in met && b in met :: a.0 == b.0 ==> a.1 == b.1
  }

  ghost predicate Tracks(last: map<Key, Action>, met: set<(Key, Action)>) {
    && (forall key :: key in last <==> exists entry | entry in met :: entry.0 == key)
    && (Agree(met) ==> forall entry | entry in met :: entry.0 in last && last[entry.0] == entry.1)
  }

  lemma TracksOneMore(last: map<Key, Action>, met: set<(Key, Action)>, key: Key, action: Action)
    requires Tracks(last, met)
    ensures Tracks(last[key := action], met + {(key, action)})
    ensures Agree(met + {(key, action)}) <==> Agree(met) && (key in last ==> last[key] == action)
  {
    var more := met + {(key, action)};
    assert Agree(more) ==> Agree(met);
    if key in last {
      var entry :| entry in met && entry.0 == key;
      assert Agree(more) ==> entry.1 == action by {
        assert entry in more && (key, action) in more;
      }
      assert Agree(met) ==> last[key] == entry.1;
    }
    var last' := last[key := action];
    forall k
      ensures k in last' <==> exists entry | entry in more :: entry.0 == k
    {
      assert (key, action) in more;
      if exists entry | entry in met :: entry.0 == k {
        var entry :| entry in met && entry.0 == k;
        assert entry in more;
      }
    }
  }

  predicate EntryOf(rule: Rule, m: nat, entry: (Key, Action))
    requires m <= |rule.risks|
  {
    && entry.0.0 == rule.kind
    && entry.0.1 in rule.risks[..m]
    && entry.0.2 == RuleSignature(rule)
    && entry.1 == rule.action
  }

  /** The entries written by the first k rules and the first m risk levels of the next one. */
  ghost predicate Met(rules: seq<Rule>, k: nat, m: nat, met: set<(Key, Action)>)
    requires k <= |rules| && (m == 0 || (k < |rules| && m <= |rules[k].risks|))
  {
    forall entry :: entry in met <==>
      || (exists i | 0 <= i < k :: EntryOf(rules[i], |rules[i].risks|, entry))
      || (m > 0 && EntryOf(rules[k], m, entry))
  }

  lemma AgreeIsNoClash(rules: seq<Rule>, met: set<(Key, Action)>)
    requires Met(rules, |rules|, 0, met)
    ensures Agree(met) <==> NoClash(rules)
  {
    hide RuleSignature, Met;
    if !NoClash(rules) {
      var i, j :| 0 <= i < j < |rules| && Clash(rules[i], rules[j]);
      ClashDisagrees(rules, met, i, j);
    }
    if !Agree(met) {
      var a, b :| a in met && b in met && a.0 == b.0 && a.1 != b.1;
      DisagreementClashes(rules, met, a, b);
    }
  }

  lemma ClashDisagrees(rules: seq<Rule>, met: set<(Key, Action)>, i: nat, j: nat)
    requires Met(rules, |rules|, 0, met) && i < |rules| && j < |rules| && Clash(rules[i], rules[j])
    ensures !Agree(met)
  {
    hide RuleSignature, Agree;
    var r :| 0 <= r < |rules[i].risks| && rules[i].risks[r] in rules[j].risks;
    var key := (rules[i].kind, rules[i].risks[r], RuleSignature(rules[i]));
    assert EntryOf(rules[i], |rules[i].risks|, (key, rules[i].action));
    assert EntryOf(rules[j], |rules[j].risks|, (key, rules[j].action));
    Disagree(met, (key, rules[i].action), (key, rules[j].action));
  }

  lemma Disagree(met: set<(Key, Action)>, a: (Key, Action), b: (Key, Action))
    requires a in met && b in met && a.0 == b.0 && a.1 != b.1
    ensures !Agree(met)
  {}

  lemma DisagreementClashes(rules: seq<Rule>, met: set<(Key, Action)>, a: (Key, Action), b: (Key, Action))
    requires Met(rules, |rules|, 0, met) && a in met && b in met && a.0 == b.0 && a.1 != b.1
    ensures !NoClash(rules)
  {
    hide RuleSignature;
    var i :| 0 <= i < |rules| && EntryOf(rules[i], |rules[i].risks|, a);
    var j :| 0 <= j < |rules| && EntryOf(rules[j], |rules[j].risks|, b);
    var r :| 0 <= r < |rules[i].risks| && rules[i].risks[r] == a.0.1;
    assert Clash(rules[i], rules[j]) && Clash(rules[j], rules[i]);
  }

  /** The one-pass validator with its last-writer map reports each kind of issue exactly when the rules have it. */
  method ValidateRules(rules: seq<Rule>) returns (issues: seq<Issue>)
    ensures Reports(issues, DuplicateRuleId) <==> !DistinctIds(rules)
    ensures Reports(issues, HighRiskFloor) <==> !KeepsFloor(rules)
    ensures Reports(issues, ConflictingRule) <==> !NoClash(rules)
    ensures issues == [] <==> ValidRules(rules)
  {
    hide RuleSignature, DistinctIds, KeepsFloor, NoClash, Agree, Tracks, Met, Reports;
    issues := [];
    var seen: set<string> := {};
    var last: map<Key, Action> := map[];
    ghost var met: set<(Key, Action)> := {};
    NothingYet(rules);
    for k := 0 to |rules|
      invariant forall id :: id in seen <==> exists i | 0 <= i < k :: rules[i].id == id
      invariant Reports(issues, DuplicateRuleId) <==> !DistinctIds(rules[..k])
      invariant Reports(issues, HighRiskFloor) <==> !KeepsFloor(rules[..k])
      invariant Tracks(last, met) && Met(rules, k, 0, met)
      invariant Reports(issues, ConflictingRule) <==> !Agree(met)
    {
      var rule := rules[k];
      if rule.id in seen {
        ReportsOneMore(issues, Issue(DuplicateRuleId, rule.id));
        issues := issues + [Issue(DuplicateRuleId, rule.id)];
      }
      seen := seen + {rule.id};
      DistinctIdsOneMore(rules, k);
      if rule.action == Allow && (High in rule.risks || Critical in rule.risks) {
        ReportsOneMore(issues, Issue(HighRiskFloor, rule.id));
        issues := issues + [Issue(HighRiskFloor, rule.id)];
      }
      KeepsFloorOneMore(rules, k);
      var signature := RuleSignature(rule);
      issues, last, met := RecordSignatures(rules, k, signature, issues, last, met);
    }
    assert rules[..|rules|] == rules;
    AgreeIsNoClash(rules, met);
    SomethingReported(issues);
  }

  lemma NothingYet(rules: seq<Rule>)
    ensures DistinctIds(rules[..0]) && KeepsFloor(rules[..0])
    ensures Tracks(map[], {}) && Met(rules, 0, 0, {}) && Agree({})
    ensures forall code :: !Reports([], code)
  {
    hide RuleSignature;
  }

  lemma SomethingReported(issues: seq<Issue>)
    ensures issues == [] <==>
            !Reports(issues, DuplicateRuleId) && !Reports(issues, HighRiskFloor) && !Reports(issues, ConflictingRule)
  {
    if issues != [] {
      assert Reports(issues, issues[0].code);
    }
  }

  lemma DistinctIdsOneMore(rules: seq<Rule>, k: nat)
    requires k < |rules|
    ensures DistinctIds(rules[..k + 1]) <==>
            DistinctIds(rules[..k]) && !exists i | 0 <= i < k :: rules[i].id == rules[k].id
  {
    var more := rules[..k + 1];
    if DistinctIds(more) {
      assert forall i | 0 <= i < k :: more[i].id != more[k].id;
    }
  }

  lemma KeepsFloorOneMore(rules: seq<Rule>, k: nat)
    requires k < |rules|
    ensures KeepsFloor(rules[..k + 1]) <==> KeepsFloor(rules[..k]) && !AllowsHigh(rules[k])
  {
    var more := rules[..k + 1];
    assert more[k] == rules[k];
  }

  /** The inner loop over one rule's risk levels. */
  method RecordSignatures(rules: seq<Rule>, k: nat, signature: string, issues: seq<Issue>,
    last: map<Key, Action>, ghost met: set<(Key, Action)>)
    returns (issues': seq<Issue>, last': map<Key, Action>, ghost met': set<(Key, Action)>)
    requires k < |rules| && signature == RuleSignature(rules[k])
    requires Tracks(last, met) && Met(rules, k, 0, met)
    requires Reports(issues, ConflictingRule) <==> !Agree(met)
    ensures Tracks(last', met') && Met(rules, k + 1, 0, met')
    ensures Reports(issues', ConflictingRule) <==> !Agree(met')
    ensures forall code | code != ConflictingRule :: Reports(issues', code) <==> Reports(issues, code)
  {
    hide RuleSignature, Tracks, Agree;
    var rule := rules[k];
    issues', last', met' := issues, last, met;
    for m := 0 to |rule.risks|
      invariant Tracks(last', met') && Met(rules, k, m, met')
      invariant Reports(issues', ConflictingRule) <==> !Agree(met')
      invariant forall code | code != ConflictingRule :: Reports(issues', code) <==> Reports(issues, code)
    {
      var key := (rule.kind, rule.risks[m], signature);
      TracksOneMore(last', met', key, rule.action);
      MetOneMore(rules, k, m, met');
      if key in last' && last'[key] != rule.action {
        ReportsOneMore(issues', Issue(ConflictingRule, rule.id));
        issues' := issues' + [Issue(ConflictingRule, rule.id)];
      }
      last' := last'[key := rule.action];
      met' := met' + {(key, rule.action)};
    }
    MetNextRule(rules, k, met');
  }

  lemma MetOneMore(rules: seq<Rule>, k: nat, m: nat, met: set<(Key, Action)>)
    requires k < |rules| && m < |rules[k].risks| && Met(rules, k, m, met)
    ensures Met(rules, k, m + 1, met + {((rules[k].kind, rules[k].risks[m], RuleSignature(rules[k])), rules[k].action)})
  {
    hide RuleSignature;
    var rule := rules[k];
    var added := ((rule.kind, rule.risks[m], RuleSignature(rule)), rule.action);
    assert rule.risks[..m + 1] == rule.risks[..m] + [rule.risks[m]];
    forall entry
      ensures EntryOf(rule, m + 1, entry) <==> (m > 0 && EntryOf(rule, m, entry)) || entry == added
    {}
  }

  lemma MetNextRule(rules: seq<Rule>, k: nat, met: set<(Key, Action)>)
    requires k < |rules| && Met(rules, k, |rules[k].risks|, met)
    ensures Met(rules, k + 1, 0, met)
  {
    hide RuleSignature;
    forall entry
      ensures entry in met <==> exists i | 0 <= i < k + 1 :: EntryOf(rules[i], |rules[i].risks|, entry)
    {
      if entry in met && !exists i | 0 <= i < k :: EntryOf(rules[i], |rules[i].risks|, entry) {
        assert EntryOf(rules[k], |rules[k].risks|, entry);
      }
    }
  }

  // --- What validity buys ---------------------------------------------------------------

  /** In a valid policy the coercion of allow to approval is never taken: the deciding rule's own action is the
      outcome. */
  lemma NoCoercion(policy: Policy, request: Request)
    requires ValidRules(policy.rules)
    ensures forall i | Decides(policy.rules, i, request) ::
              Evaluate(Some(policy), request).decision == PlainDecision(policy.rules[i].action)
  {
    var k := FirstMatch(policy.rules, request);
    assert forall i | Decides(policy.rules, i, request) :: i == k;
    assert k < |policy.rules| ==> !AllowsHigh(policy.rules[k]);
  }

  function Swap(rules: seq<Rule>, i: nat): seq<Rule>
    requires i + 1 < |rules|
  {
    rules[i := rules[i + 1]][i + 1 := rules[i]]
  }

  /** Adjacent rules of equal kind and signature may be swapped in a valid policy without changing any decision. */
  lemma SwapKeepsDecisions(policy: Policy, i: nat, request: Request)
    requires ValidRules(policy.rules) && i + 1 < |policy.rules|
    requires policy.rules[i].kind == policy.rules[i + 1].kind
    requires RuleSignature(policy.rules[i]) == RuleSignature(policy.rules[i + 1])
    ensures Evaluate(Some(policy.(rules := Swap(policy.rules, i))), request).decision
         == Evaluate(Some(policy), request).decision
  {
    hide RuleSignature, RuleMatches, Clash, DistinctIds, KeepsFloor, FirstMatch, Swap;
    var rules, swapped := policy.rules, Swap(policy.rules, i);
    assert !Clash(rules[i], rules[i + 1]);
    hide NoClash;
    BothMatchSameAction(rules[i], rules[i + 1], request);
    SwappedFirst(rules, i, request);
    SameActionSameDecision(rules, swapped, request);
  }

  /** The rule that decides after a swap: the same one, or the other of the two. */
  lemma SwappedFirst(rules: seq<Rule>, i: nat, request: Request)
    requires i + 1 < |rules|
    requires RuleMatches(rules[i], request) && RuleMatches(rules[i + 1], request) ==>
             rules[i].action == rules[i + 1].action
    ensures |Swap(rules, i)| == |rules|
    ensures var k, k' := FirstMatch(rules, request), FirstMatch(Swap(rules, i), request);
            && (k == |rules| <==> k' == |rules|)
            && (k < |rules| ==> rules[k].action == Swap(rules, i)[k'].action)
  {
    hide RuleMatches, FirstMatch;
    var swapped := Swap(rules, i);
    var k := FirstMatch(rules, request);
    assert swapped[i] == rules[i + 1] && swapped[i + 1] == rules[i];
    assert forall j | 0 <= j < |rules| && j != i && j != i + 1 :: swapped[j] == rules[j];
    if k < i || k > i + 1 {
      FirstIs(swapped, k, request);
    } else if RuleMatches(rules[i + 1], request) {
      FirstIs(swapped, i, request);
    } else {
      FirstIs(swapped, i + 1, request);
    }
  }

  lemma FirstIs(rules: seq<Rule>, k: nat, request: Request)
    requires k <= |rules| && forall j | 0 <= j < k :: !RuleMatches(rules[j], request)
    requires k < |rules| ==> RuleMatches(rules[k], request)
    ensures FirstMatch(rules, request) == k
  {
    hide RuleMatches;
  }

  lemma SameActionSameDecision(rules: seq<Rule>, others: seq<Rule>, request: Request)
    requires |rules| == |others|
    requires var k, k' := FirstMatch(rules, request), FirstMatch(others, request);
             && (k == |rules| <==> k' == |rules|)
             && (k < |rules| ==> rules[k].action == others[k'].action)
    ensures forall version ::
              Evaluate(Some(Policy(version, rules)), request).decision ==
                Evaluate(Some(Policy(version, others)), request).decision
  {
    hide FirstMatch, RuleMatches;
  }

  lemma BothMatchSameAction(a: Rule, b: Rule, request: Request)
    requires a.kind == b.kind && RuleSignature(a) == RuleSignature(b) && !Clash(a, b)
    ensures RuleMatches(a, request) && RuleMatches(b, request) ==> a.action == b.action
  {
    hide RuleSignature;
  }

  // --- What the conflict test decides ---------------------------------------------------------

  /** Non-empty references, free of the separators; references may repeat. */
  predicate SeparatorFree(rule: Rule) {
    forall i | 0 <= i < 5 :: Clean(RuleLists(rule)[i])
  }

  predicate Unrepeated(rule: Rule) {
    forall i | 0 <= i < 5 :: Distinct(RuleLists(rule)[i])
  }

  ghost predicate SameReferences(a: Rule, b: Rule) {
    forall i | 0 <= i < 5 :: SameMembers(RuleLists(a)[i], RuleLists(b)[i])
  }

  predicate SameMultiplicities(a: Rule, b: Rule) {
    forall i | 0 <= i < 5 :: multiset(RuleLists(a)[i]) == multiset(RuleLists(b)[i])
  }

  ghost predicate SameScope(a: Rule, b: Rule) {
    forall request: Request :: InScope(a.scope, request) <==> InScope(b.scope, request)
  }

  function Probe(xs: seq<string>): Request
    requires |xs| == 5
  {
    Request(ToolInvocation, Low, [xs[0]], xs[1], xs[2], xs[3], xs[4], false)
  }

  lemma ProbeMeets(rule: Rule, xs: seq<string>)
    requires |xs| == 5
    ensures AdmitsAll(RuleLists(rule), xs) <==> InScope(rule.scope, Probe(xs))
  {
    var lists, given := RuleLists(rule), [xs[0]];
    assert given[0] == xs[0];
    assert AdmitsAll(lists, xs) <==>
           (&& Admits(lists[0], xs[0]) && Admits(lists[1], xs[1])
            && Admits(lists[2], xs[2]) && Admits(lists[3], xs[3]) && Admits(lists[4], xs[4]));
  }

  lemma SameMembersSameMeeting(a: seq<string>, b: seq<string>)
    requires SameMembers(a, b)
    ensures forall x :: Admits(a, x) <==> Admits(b, x)
    ensures forall given :: Meets(a, given) <==> Meets(b, given)
  {
    assert a != [] ==> a[0] in b;
    assert b != [] ==> b[0] in a;
  }

  /** For any two rules, the same requests are in scope exactly when list by list the same references occur. */
  lemma ScopeIsReferences(a: Rule, b: Rule)
    ensures SameScope(a, b) <==> SameReferences(a, b)
  {
    hide Admits, Meets, AdmitsAll, SameMembers;
    var la, lb := RuleLists(a), RuleLists(b);
    if SameReferences(a, b) {
      SameMembersSameMeeting(la[0], lb[0]);
      SameMembersSameMeeting(la[1], lb[1]);
      SameMembersSameMeeting(la[2], lb[2]);
      SameMembersSameMeeting(la[3], lb[3]);
      SameMembersSameMeeting(la[4], lb[4]);
      assert SameScope(a, b);
    }
    if SameScope(a, b) {
      forall xs: seq<string> | |xs| == 5
        ensures AdmitsAll(la, xs) <==> AdmitsAll(lb, xs)
      {
        ProbeMeets(a, xs);
        ProbeMeets(b, xs);
      }
      MeaningIsMembers(la, lb);
    }
  }

  /** For separator-free rules, equal signatures are exactly the same references equally often. */
  lemma SignatureIsMultiplicities(a: Rule, b: Rule)
    requires SeparatorFree(a) && SeparatorFree(b)
    ensures RuleSignature(a) == RuleSignature(b) <==> SameMultiplicities(a, b)
  {
    hide Signature, Clean;
    SignatureIsMultisets(RuleLists(a), RuleLists(b));
  }

  /** Two rules that act differently on a shared kind and risk level. */
  predicate Rivals(a: Rule, b: Rule) {
    && a.kind == b.kind
    && a.action != b.action
    && exists i | 0 <= i < |a.risks| :: a.risks[i] in b.risks
  }

  /** Rivals that match the same requests. */
  ghost predicate Contradicts(a: Rule, b: Rule) { Rivals(a, b) && SameScope(a, b) }

  /** When the conflict test is right. For any two rules: it is wrong exactly on rivals whose signatures agree and
      whose references do not, or the reverse. For separator-free rules: exactly when rivals with the same references
      have them equally often. */
  lemma ConflictTestRightIff(a: Rule, b: Rule)
    ensures (Clash(a, b) <==> Contradicts(a, b)) <==>
            (Rivals(a, b) ==> (RuleSignature(a) == RuleSignature(b) <==> SameReferences(a, b)))
    ensures SeparatorFree(a) && SeparatorFree(b) ==>
              ((Clash(a, b) <==> Contradicts(a, b)) <==>
               (Rivals(a, b) && SameReferences(a, b) ==> SameMultiplicities(a, b)))
  {
    hide RuleSignature, SameScope, SameReferences, SameMultiplicities, SeparatorFree;
    ScopeIsReferences(a, b);
    if SeparatorFree(a) && SeparatorFree(b) {
      SignatureIsMultiplicities(a, b);
      if SameMultiplicities(a, b) {
        MultiplicitiesHaveReferences(a, b);
      }
    }
  }

  lemma MultiplicitiesHaveReferences(a: Rule, b: Rule)
    requires SameMultiplicities(a, b)
    ensures SameReferences(a, b)
  {
    forall i | 0 <= i < 5
      ensures SameMembers(RuleLists(a)[i], RuleLists(b)[i])
    {
      MultisetMembers(RuleLists(a)[i], RuleLists(b)[i]);
    }
  }

  /** Separator-free references rule out false conflicts. */
  lemma NoFalseConflict(a: Rule, b: Rule)
    requires SeparatorFree(a) && SeparatorFree(b)
    ensures Clash(a, b) ==> Contradicts(a, b)
  {
    hide RuleSignature, SameScope, SameReferences, SameMultiplicities, SeparatorFree;
    SignatureIsMultiplicities(a, b);
    ScopeIsReferences(a, b);
    if Clash(a, b) {
      MultiplicitiesHaveReferences(a, b);
    }
  }

  /** Unrepeated references rule out missed conflicts, whatever characters they contain. */
  lemma NoMissedConflict(a: Rule, b: Rule)
    requires Unrepeated(a) && Unrepeated(b)
    ensures Contradicts(a, b) ==> Clash(a, b)
  {
    hide Signature, Distinct, SameMembers, SameScope;
    ScopeIsReferences(a, b);
    if Contradicts(a, b) {
      var la, lb := RuleLists(a), RuleLists(b);
      forall i | 0 <= i < 5
        ensures multiset(la[i]) == multiset(lb[i])
      {
        UnrepeatedMembers(la[i], lb[i]);
      }
      SameMultisetsSameSignature(la, lb);
    }
  }

  /** For separator-free, unrepeated rules, equal signatures are exactly equal scopes. */
  lemma SignatureIsScope(a: Rule, b: Rule)
    requires SeparatorFree(a) && SeparatorFree(b) && Unrepeated(a) && Unrepeated(b)
    ensures RuleSignature(a) == RuleSignature(b) <==> SameScope(a, b)
  {
    hide RuleSignature, SameScope, Clean, Distinct, SameMembers;
    SignatureIsMultiplicities(a, b);
    ScopeIsReferences(a, b);
    forall i | 0 <= i < 5
      ensures SameMembers(RuleLists(a)[i], RuleLists(b)[i]) <==> multiset(RuleLists(a)[i]) == multiset(RuleLists(b)[i])
    {
      UnrepeatedMembers(RuleLists(a)[i], RuleLists(b)[i]);
    }
  }

  /** For separator-free, unrepeated rules the validator's conflict test is the semantic one. */
  lemma ClashIsContradiction(rules: seq<Rule>)
    requires forall i | 0 <= i < |rules| :: SeparatorFree(rules[i]) && Unrepeated(rules[i])
    ensures NoClash(rules) <==> forall i, j | 0 <= i < j < |rules| :: !Contradicts(rules[i], rules[j])
  {
    hide Clash, Contradicts, SeparatorFree, Unrepeated;
    forall i, j | 0 <= i < j < |rules|
      ensures Clash(rules[i], rules[j]) <==> Contradicts(rules[i], rules[j])
    {
      NoFalseConflict(rules[i], rules[j]);
      NoMissedConflict(rules[i], rules[j]);
    }
  }

  // --- Families on which it errs ------------------------------------------------------------------

  /** A rule on low risk tool calls that only names groups and tools. */
  function ToolRule(id: string, action: Action, groups: seq<string>, tools: seq<string>): Rule {
    Rule(id, ToolInvocation, action, [Low], Scope(groups, tools, [], [], []))
  }

  lemma ToolRivals(a: Rule, b: Rule)
    requires a.kind == b.kind && a.action != b.action && a.risks == b.risks == [Low]
    ensures Rivals(a, b)
    ensures Clash(a, b) <==> RuleSignature(a) == RuleSignature(b)
  {
    hide RuleSignature;
    assert a.risks[0] in b.risks;
  }

  /** The signature of a rule that only names groups and tools. */
  lemma ToolSignature(rule: Rule)
    requires rule.scope == Scope(rule.scope.toolGroups, rule.scope.tools, [], [], [])
    ensures RuleSignature(rule) == Join("|", [Part(rule.scope.toolGroups), Part(rule.scope.tools)] + ["", "", ""])
  {
    hide Sort, Join;
    var lists := RuleLists(rule);
    var none: seq<seq<string>> := [[], [], []];
    assert lists[1..] == [rule.scope.tools] + none && lists[1..][1..] == none;
    PartsOfNone();
    assert Parts(lists) == [Part(rule.scope.toolGroups), Part(rule.scope.tools)] + ["", "", ""];
  }

  lemma PartOfNone()
    ensures Part([]) == ""
  {}

  lemma PartsOfNone()
    ensures Parts([[], [], []]) == ["", "", ""]
  {
    hide Part;
    PartOfNone();
    var none: seq<seq<string>> := [[], [], []];
    assert none[1..] == [[], []] && none[1..][1..] == [[]] && none[1..][1..][1..] == [];
  }

  lemma ReferencesDiffer(a: Rule, b: Rule, i: nat, x: string)
    requires i < 5 && x in RuleLists(a)[i] && x !in RuleLists(b)[i]
    ensures !SameScope(a, b)
  {
    hide SameScope;
    ScopeIsReferences(a, b);
    assert !SameMembers(RuleLists(a)[i], RuleLists(b)[i]);
  }

  /** A comma: any two references in order and the one reference that joins them are taken for a conflict and are
      none. */
  lemma CommaFalseConflict(u: string, v: string)
    requires LexLeq(u, v)
    ensures var joined, split := ToolRule("1", Allow, [], [u + "," + v]), ToolRule("2", Deny, [], [u, v]);
            Clash(joined, split) && !Contradicts(joined, split)
  {
    hide Part, Join, LexLeq, RuleSignature, Clash, SameScope;
    var joined, split := ToolRule("1", Allow, [], [u + "," + v]), ToolRule("2", Deny, [], [u, v]);
    CommaCollides(u, v);
    ToolSignature(joined);
    ToolSignature(split);
    ToolRivals(joined, split);
    assert u + "," + v in RuleLists(joined)[1];
    ReferencesDiffer(joined, split, 1, u + "," + v);
  }

  /** The empty reference and no reference: the first matches calls of no tool, the second matches every call. */
  lemma EmptyFalseConflict()
    ensures var blank, open := ToolRule("1", Allow, [], [""]), ToolRule("2", Deny, [], []);
            Clash(blank, open) && !Contradicts(blank, open)
  {
    hide Part, Join, RuleSignature, Clash, SameScope;
    var blank, open := ToolRule("1", Allow, [], [""]), ToolRule("2", Deny, [], []);
    EmptyCollides();
    ToolSignature(blank);
    ToolSignature(open);
    ToolRivals(blank, open);
    assert "" in RuleLists(blank)[1];
    ReferencesDiffer(blank, open, 1, "");
  }

  /** A bar: any three references, joined before or after the border between groups and tools. */
  lemma BarFalseConflict(u: string, v: string, w: string)
    ensures var left, right := ToolRule("1", Allow, [u + "|" + v], [w]), ToolRule("2", Deny, [u], [v + "|" + w]);
            Clash(left, right) && !Contradicts(left, right)
  {
    hide Part, Join, RuleSignature, Clash, SameScope;
    var left, right := ToolRule("1", Allow, [u + "|" + v], [w]), ToolRule("2", Deny, [u], [v + "|" + w]);
    PartOfOne(u + "|" + v);
    PartOfOne(w);
    PartOfOne(u);
    PartOfOne(v + "|" + w);
    BarCollides(u, v, w, ["", "", ""]);
    ToolSignature(left);
    ToolSignature(right);
    ToolRivals(left, right);
    assert u + "|" + v in RuleLists(left)[0];
    ReferencesDiffer(left, right, 0, u + "|" + v);
  }

  /** A repeat: any reference listed twice hides a contradiction, and the validator accepts the policy. */
  lemma RepeatMissedConflict(x: string)
    ensures var twice, once := ToolRule("1", Allow, [], [x, x]), ToolRule("2", Deny, [], [x]);
            Contradicts(twice, once) && ValidRules([twice, once])
  {
    hide Part, Join, RuleSignature, Clash, SameScope;
    var twice, once := ToolRule("1", Allow, [], [x, x]), ToolRule("2", Deny, [], [x]);
    RepeatShows(x);
    ToolSignature(twice);
    ToolSignature(once);
    ToolsShow(Part([x, x]), Part([x]), Part([]));
    ToolRivals(twice, once);
    ScopeIsReferences(twice, once);
    assert "1" != "2" by {
      assert "1"[0] != "2"[0];
    }
  }

  /** A longer tools part makes a longer signature. */
  lemma ToolsShow(x: string, y: string, groups: string)
    requires |x| != |y|
    ensures Join("|", [groups, x] + ["", "", ""]) != Join("|", [groups, y] + ["", "", ""])
  {
    var rest := ["", "", ""];
    JoinTwo(groups, x, rest);
    JoinTwo(groups, y, rest);
    hide Join;
    assert |groups + "|" + x + "|" + Join("|", rest)| != |groups + "|" + y + "|" + Join("|", rest)|;
  }
}
