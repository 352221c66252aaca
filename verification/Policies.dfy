/** The effective policy, the observed state, and the decision on an action. */
module Policies {
  import opened Actions
  import opened Canonical
  import opened Characters
  import opened Digests
  import opened Records
  import opened Wrappers

  const POLICY_SCHEMA_VERSION: nat := 1
  const MAX_CANONICAL_POLICY_BYTES: nat := 256 * 1024
  const MAX_TRUSTED_PROJECTS: nat := 256
  const MAX_CAPABILITY_GRANTS: nat := 1_024
  const MAX_CAPABILITY_RULES: nat := 6

  datatype RuleDecision = AllowWithoutApproval | RequireApproval(maxTtlMs: U64) | Deny

  /** Grants are in the order in which the set that holds them is iterated. */
  datatype EffectivePolicy = EffectivePolicy(
    schemaVersion: U16, revision: string, trustedProjects: map<string, string>, grants: seq<CapabilityScope>,
    rules: map<CapabilityKind, RuleDecision>, maxApprovalTtlMs: U64)

  datatype ExecutionState = ExecutionState(projectState: string, resourceState: string,
      destinationState: Option<string>)

  datatype ApprovalRequirement = ApprovalRequirement(
    actionId: string, actionDigest: string, policyDigest: string, bindingDigest: string,
    maxTtlMs: U64, actionCreatedAt: U64, actionExpiresAt: U64)

  datatype DenialReason =
    | InvalidAction | InvalidPolicy | InvalidExecutionState | Expired | UntrustedProject
    | NoCapabilityGrant | NoPolicyRule | RuleDenied | ProjectStateDrift

  datatype PolicyDecision =
    | AllowedWithoutApproval(actionDigest: string, policyDigest: string, bindingDigest: string)
    | ApprovalRequired(requirement: ApprovalRequirement)
    | Denied(reason: DenialReason)

  // ------------------------------------------------------ serialized form

  function KindName(k: CapabilityKind): string {
    match k
    case ProjectRead => "project_read"
    case ProjectApplyPatch => "project_apply_patch"
    case BrokerCommandKind => "broker_command"
    case ProviderSubmit => "provider_submit"
    case CredentialUse => "credential_use"
    case WorktreeIntegrate => "worktree_integrate"
  }

  lemma KindNamesDiffer(a: CapabilityKind, b: CapabilityKind)
    requires KindName(a) == KindName(b)
    ensures a == b
  {
    assert |KindName(a)| == |KindName(b)| && KindName(a)[0] == KindName(b)[0];
  }

  function RuleFields(r: RuleDecision): seq<Field> {
    match r
    case AllowWithoutApproval => [Field("decision", Str("allow_without_approval"))]
    case RequireApproval(ttl) => [Field("decision", Str("require_approval")), Field("max_ttl_ms", Int(ttl))]
    case Deny => [Field("decision", Str("deny"))]
  }

  function TrustedValue(trusted: map<string, string>): Value {
    Obj(map id | id in trusted :: Str(trusted[id]))
  }

  ghost predicate DistinctKindNames() {
    forall a, b :: KindName(a) == KindName(b) ==> a == b
  }

  lemma KindNamesAreDistinct()
    ensures DistinctKindNames()
  {
    forall a, b | KindName(a) == KindName(b) ensures a == b {
      KindNamesDiffer(a, b);
    }
  }

  function RulesValue(rules: map<CapabilityKind, RuleDecision>): Value {
    KindNamesAreDistinct();
    Obj(map k | k in rules :: KindName(k) := Record(RuleFields(rules[k])))
  }

  function GrantsValue(grants: seq<CapabilityScope>): Value {
    Arr(seq(|grants|, i requires 0 <= i < |grants| => Record(ScopeFields(grants[i]))))
  }

  function PolicyFields(p: EffectivePolicy): seq<Field> {
    [Field("schema_version", Int(p.schemaVersion)), Field("revision", Str(p.revision)),
     Field("trusted_projects", TrustedValue(p.trustedProjects)), Field("grants", GrantsValue(p.grants)),
     Field("rules", RulesValue(p.rules)), Field("max_approval_ttl_ms", Int(p.maxApprovalTtlMs))]
  }

  function BindingFields(actionDigest: string, policyDigest: string, s: ExecutionState): seq<Field> {
    [Field("action_digest", Str(actionDigest)), Field("policy_digest", Str(policyDigest)),
     Field("project_state", Str(s.projectState)), Field("resource_state", Str(s.resourceState)),
     Field("destination_state", if s.destinationState.None? then Null else Str(s.destinationState.value))]
  }

  // ----------------------------------------------------------- validation

  predicate ValidRule(k: CapabilityKind, r: RuleDecision) {
    match r
    case AllowWithoutApproval => k == ProjectRead
    case RequireApproval(ttl) => 0 < ttl <= MAX_ACTION_TTL_MS
    case Deny => true
  }

  predicate ValidPolicy(p: EffectivePolicy) {
    && p.schemaVersion == POLICY_SCHEMA_VERSION && ValidId(p.revision)
    && |p.trustedProjects| <= MAX_TRUSTED_PROJECTS
    && (forall id :: id in p.trustedProjects ==> ValidId(id) && Sha256Text(p.trustedProjects[id]))
    && |p.grants| <= MAX_CAPABILITY_GRANTS && (forall i :: 0 <= i < |p.grants| ==> ValidScope(p.grants[i]))
    && |p.rules| <= MAX_CAPABILITY_RULES && (forall k :: k in p.rules ==> ValidRule(k, p.rules[k]))
    && 0 < p.maxApprovalTtlMs <= MAX_ACTION_TTL_MS
    && ByteLength(Text(Record(PolicyFields(p)))) <= MAX_CANONICAL_POLICY_BYTES
  }

  predicate ValidState(s: ExecutionState, a: ActionProposal) {
    && Sha256Text(s.projectState) && Sha256Text(s.resourceState)
    && (s.destinationState.Some? ==> Sha256Text(s.destinationState.value))
    && RequiresDestinationState(a.operation) == s.destinationState.Some?
  }

  // -------------------------------------------------------------- digests

  function ActionDigest(hash: Hash, a: ActionProposal): string {
    DomainDigest(hash, ACTION_DOMAIN, Text(Record(ActionFields(a))))
  }

  function PolicyDigest(hash: Hash, p: EffectivePolicy): string {
    DomainDigest(hash, POLICY_DOMAIN, Text(Record(PolicyFields(p))))
  }

  function BindingDigest(hash: Hash, actionDigest: string, policyDigest: string, s: ExecutionState): string {
    DomainDigest(hash, BINDING_DOMAIN, Text(Record(BindingFields(actionDigest, policyDigest, s))))
  }

  /** The digest that ties an action, a policy and an observed state together. */
  function Bound(hash: Hash, a: ActionProposal, p: EffectivePolicy, s: ExecutionState): string {
    BindingDigest(hash, ActionDigest(hash, a), PolicyDigest(hash, p), s)
  }

  /** Each digest is the hash of its own domain name and the canonical text. */
  lemma DigestsAreOf(hash: Hash, a: ActionProposal, p: EffectivePolicy, s: ExecutionState)
    ensures IsDigestOf(ActionDigest(hash, a), hash, "vea\0action\0v1\0" + Text(Record(ActionFields(a))))
    ensures IsDigestOf(PolicyDigest(hash, p), hash, "vea\0policy\0v1\0" + Text(Record(PolicyFields(p))))
    ensures IsDigestOf(Bound(hash, a, p, s), hash,
                       "vea\0approval-binding\0v1\0"
                       + Text(Record(BindingFields(ActionDigest(hash, a), PolicyDigest(hash, p), s))))
  {
    hide DomainDigest, IsDigestOf, ActionFields, PolicyFields, BindingFields, Text, Record;
    DigestIsRead(hash, ACTION_DOMAIN, Text(Record(ActionFields(a))));
    DigestIsRead(hash, POLICY_DOMAIN, Text(Record(PolicyFields(p))));
    DigestIsRead(hash, BINDING_DOMAIN, Text(Record(BindingFields(ActionDigest(hash, a), PolicyDigest(hash, p), s))));
  }

  // ------------------------------------------------------------- decision

  predicate SomeGrantAuthorizes(p: EffectivePolicy, a: ActionProposal) {
    exists i :: 0 <= i < |p.grants| && Authorizes(p.grants[i], a)
  }

  predicate FitsDigest(a: ActionProposal) {
    ByteLength(Text(Record(ActionFields(a)))) <= MAX_CANONICAL_ACTION_BYTES
  }

  function EvaluateAction(hash: Hash, a: ActionProposal, p: EffectivePolicy, s: ExecutionState,
      now: U64): PolicyDecision
  {
    if !ValidShape(a) then Denied(InvalidAction)
    else if !ValidPolicy(p) then Denied(InvalidPolicy)
    else if !ValidState(s, a) then Denied(InvalidExecutionState)
    else if now < a.createdAt || now >= a.expiresAt then Denied(Expired)
    else if a.projectId !in p.trustedProjects then Denied(UntrustedProject)
    else if p.trustedProjects[a.projectId] != s.projectState then Denied(ProjectStateDrift)
    else if !SomeGrantAuthorizes(p, a) then Denied(NoCapabilityGrant)
    else if KindOf(a.requestedCapability) !in p.rules then Denied(NoPolicyRule)
    else
      var rule := p.rules[KindOf(a.requestedCapability)];
      if rule.Deny? then Denied(RuleDenied)
      else if !FitsDigest(a) then Denied(InvalidAction)
      else
        var actionDigest, policyDigest := ActionDigest(hash, a), PolicyDigest(hash, p);
        var bindingDigest := BindingDigest(hash, actionDigest, policyDigest, s);
        if rule.AllowWithoutApproval? then AllowedWithoutApproval(actionDigest, policyDigest, bindingDigest)
        else
          ApprovalRequired(ApprovalRequirement(
            a.actionId, actionDigest, policyDigest, bindingDigest,
            if p.maxApprovalTtlMs < rule.maxTtlMs then p.maxApprovalTtlMs else rule.maxTtlMs, a.createdAt, a.expiresAt))
  }

  /** Everything the clock has no part in. */
  predicate Admissible(a: ActionProposal, p: EffectivePolicy, s: ExecutionState) {
    && ValidShape(a) && ValidPolicy(p) && ValidState(s, a)
    && a.projectId in p.trustedProjects && p.trustedProjects[a.projectId] == s.projectState
    && SomeGrantAuthorizes(p, a)
    && KindOf(a.requestedCapability) in p.rules && !p.rules[KindOf(a.requestedCapability)].Deny?
    && FitsDigest(a)
  }

  /** An action is not denied exactly when it is admissible and the clock is inside its lifetime. */
  lemma DeniedUnlessAdmissible(hash: Hash, a: ActionProposal, p: EffectivePolicy, s: ExecutionState, now: U64)
    ensures !EvaluateAction(hash, a, p, s, now).Denied? <==> Admissible(a, p, s) && a.createdAt <= now < a.expiresAt
  {
    hide ValidShape, ValidPolicy, ValidState, SomeGrantAuthorizes, FitsDigest, ActionDigest, PolicyDigest,
         BindingDigest;
  }

  // ------------------------------------------------------ the whole table

  /** Some valid grant of the policy includes the least capability that the action needs. */
  ghost predicate Granted(p: EffectivePolicy, a: ActionProposal) {
    exists i :: 0 <= i < |p.grants| && ValidScope(p.grants[i]) && Includes(p.grants[i], NeededScope(a))
  }

  /** The rule for what the action does. */
  function RuleOf(p: EffectivePolicy, a: ActionProposal): Option<RuleDecision> {
    var kind := match a.operation
                case ReadFiles(_, _) => ProjectRead
                case ApplyPatch(_, _, _, _) => ProjectApplyPatch
                case RunBrokerCommand(_, _, _, _, _, _) => BrokerCommandKind
                case SubmitProviderRequest(_, _, _, _, _, _) => ProviderSubmit
                case UseCredential(_, _, _, _) => CredentialUse
                case IntegrateWorktree(_, _, _, _, _, _) => WorktreeIntegrate;
    if kind in p.rules then Some(p.rules[kind]) else None
  }

  lemma RuleOfKind(p: EffectivePolicy, a: ActionProposal)
    ensures RuleOf(p, a) == if KindOf(NeededScope(a)) in p.rules then Some(p.rules[KindOf(NeededScope(a))]) else None
  {
  }

  /** The project is trusted in the state in which it was found. */
  predicate Recognized(p: EffectivePolicy, a: ActionProposal, s: ExecutionState) {
    a.projectId in p.trustedProjects && p.trustedProjects[a.projectId] == s.projectState
  }

  predicate Alive(a: ActionProposal, now: U64) {
    a.createdAt <= now < a.expiresAt
  }

  /** Nothing but the rule is left to decide. */
  ghost predicate LeftToRule(a: ActionProposal, p: EffectivePolicy, s: ExecutionState, now: U64) {
    ValidShape(a) && ValidPolicy(p) && ValidState(s, a) && Alive(a, now) && Recognized(p, a, s) && Granted(p, a)
  }

  lemma GrantedMeansAuthorized(p: EffectivePolicy, a: ActionProposal)
    ensures Granted(p, a) <==> SomeGrantAuthorizes(p, a)
    ensures ValidShape(a) ==> KindOf(a.requestedCapability) == KindOf(NeededScope(a))
  {
    hide Includes, Matches, ValidScope, KindOf, NeededScope, ValidId, ValidLifetime, ValidProvenance, ValidOperation;
    MatchingIsInclusion(a.requestedCapability, a.requestedCapability, a);
    forall i | 0 <= i < |p.grants|
      ensures Authorizes(p.grants[i], a) <==> ValidScope(p.grants[i]) && Includes(p.grants[i], NeededScope(a))
    {
      MatchingIsInclusion(p.grants[i], p.grants[i], a);
    }
  }

  /** The rule decides: an action goes ahead without approval if and only if the rule for what it
      needs says so, and with approval if and only if the rule demands one; the answer carries
      the digests of the action, the policy and both tied to the observed state. */
  lemma RuleDecides(hash: Hash, a: ActionProposal, p: EffectivePolicy, s: ExecutionState, now: U64)
    ensures var d := EvaluateAction(hash, a, p, s, now);
            var ready := LeftToRule(a, p, s, now) && FitsDigest(a) && RuleOf(p, a).Some?;
            && (d.AllowedWithoutApproval? <==> ready && RuleOf(p, a).value == AllowWithoutApproval)
            && (d.ApprovalRequired? <==> ready && RuleOf(p, a).value.RequireApproval?)
            && (d.AllowedWithoutApproval? ==>
                  d.actionDigest == ActionDigest(hash, a) && d.policyDigest == PolicyDigest(hash, p)
                  && d.bindingDigest == Bound(hash, a, p, s))
            && (d.ApprovalRequired? ==>
                  var limit, r := RuleOf(p, a).value.maxTtlMs, d.requirement;
                  && r.actionId == a.actionId && r.actionDigest == ActionDigest(hash, a)
                  && r.policyDigest == PolicyDigest(hash, p) && r.bindingDigest == Bound(hash, a, p, s)
                  && r.actionCreatedAt == a.createdAt && r.actionExpiresAt == a.expiresAt
                  && r.maxTtlMs == if limit <= p.maxApprovalTtlMs then limit else p.maxApprovalTtlMs)
  {
    GrantedMeansAuthorized(p, a);
    RuleOfKind(p, a);
    hide ValidShape, ValidPolicy, ValidState, SomeGrantAuthorizes, Granted, FitsDigest, NeededScope, KindOf, RuleOf;
    hide ActionDigest, PolicyDigest, BindingDigest;
  }

  /** Every denial names the first thing that is wrong, and a denial for size comes last. */
  lemma DenialsAreExact(hash: Hash, a: ActionProposal, p: EffectivePolicy, s: ExecutionState, now: U64)
    ensures var d := EvaluateAction(hash, a, p, s, now);
            var sound := ValidShape(a) && ValidPolicy(p) && ValidState(s, a);
            && (d == Denied(InvalidAction) <==>
                  !ValidShape(a) || (LeftToRule(a, p, s, now) && RuleOf(p, a).Some? && RuleOf(p, a).value != Deny
                                     && !FitsDigest(a)))
            && (d == Denied(InvalidPolicy) <==> ValidShape(a) && !ValidPolicy(p))
            && (d == Denied(InvalidExecutionState) <==> ValidShape(a) && ValidPolicy(p) && !ValidState(s, a))
            && (d == Denied(Expired) <==> sound && !Alive(a, now))
            && (d == Denied(UntrustedProject) <==> sound && Alive(a, now) && a.projectId !in p.trustedProjects)
            && (d == Denied(ProjectStateDrift) <==>
                  sound && Alive(a, now) && a.projectId in p.trustedProjects && !Recognized(p, a, s))
            && (d == Denied(NoCapabilityGrant) <==>
                  sound && Alive(a, now) && Recognized(p, a, s) && !Granted(p, a))
            && (d == Denied(NoPolicyRule) <==> LeftToRule(a, p, s, now) && RuleOf(p, a) == None)
            && (d == Denied(RuleDenied) <==> LeftToRule(a, p, s, now) && RuleOf(p, a) == Some(Deny))
  {
    GrantedMeansAuthorized(p, a);
    RuleOfKind(p, a);
    hide ValidShape, ValidPolicy, ValidState, SomeGrantAuthorizes, Granted, FitsDigest, NeededScope, KindOf, RuleOf;
    hide ActionDigest, PolicyDigest, BindingDigest;
  }

  function PathsOf(o: ActionOperation): seq<string> {
    match o
    case ReadFiles(_, paths) => paths
    case ApplyPatch(_, _, _, paths) => paths
    case RunBrokerCommand(_, _, _, _, cwd, _) => [cwd]
    case _ => []
  }

  function DestinationOf(o: ActionOperation): Option<Destination> {
    match o
    case SubmitProviderRequest(_, _, destination, _, _, _) => Some(destination)
    case UseCredential(_, _, _, destination) => Some(destination)
    case _ => None
  }

  /** What is certain of every action that is not denied: it lives for five minutes at most and says
      where it comes from; the paths it names are accepted ones, each once; where it goes to is
      observed if and only if it goes anywhere; and no rule waits longer than five minutes or lets
      anything but reading go unapproved. */
  lemma UndeniedIsSound(hash: Hash, a: ActionProposal, p: EffectivePolicy, s: ExecutionState, now: U64)
    requires !EvaluateAction(hash, a, p, s, now).Denied?
    ensures a.schemaVersion == 1 && p.schemaVersion == 1
    ensures a.createdAt <= now < a.expiresAt <= a.createdAt + 5 * 60 * 1000 && a.expiresAt < 0x20_0000_0000_0000
    ensures 1 <= |a.provenance| <= 32
    ensures var paths := PathsOf(a.operation);
            |paths| <= 256 && forall i :: 0 <= i < |paths| ==>
              ValidPath(paths[i]) && (i > 0 ==> Before(paths[i-1], paths[i]))
    ensures DestinationOf(a.operation).Some? == s.destinationState.Some?
    ensures DestinationOf(a.operation).Some? ==>
              DestinationOf(a.operation).value.scheme == "https" && DestinationOf(a.operation).value.port > 0
    ensures forall k :: k in p.rules ==>
              (p.rules[k] == AllowWithoutApproval ==> k == ProjectRead)
              && (p.rules[k].RequireApproval? ==> 0 < p.rules[k].maxTtlMs <= 5 * 60 * 1000)
    ensures |p.grants| <= 1024 && |p.trustedProjects| <= 256 && 0 < p.maxApprovalTtlMs <= 5 * 60 * 1000
    ensures ByteLength(Text(Record(ActionFields(a)))) <= 64 * 1024
    ensures ByteLength(Text(Record(PolicyFields(p)))) <= 256 * 1024
  {
    DeniedUnlessAdmissible(hash, a, p, s, now);
    hide EvaluateAction, ValidId, ValidPath, Matches, SomeGrantAuthorizes, ActionFields, PolicyFields, Sha256Text,
         ValidScope, BoundedString, ByteLength, Before;
  }

  // --------------------------------------------------- comparing policies

  /** A rule that lets at least as much through, and for at least as long. */
  predicate RuleAllowsMore(r: RuleDecision, than: RuleDecision) {
    || than.Deny? || r.AllowWithoutApproval?
    || (r.RequireApproval? && than.RequireApproval? && than.maxTtlMs <= r.maxTtlMs)
  }

  ghost predicate IncludedInSome(grants: seq<CapabilityScope>, s: CapabilityScope) {
    exists i :: 0 <= i < |grants| && Includes(grants[i], s)
  }

  /** Policy q trusts the same state of every project that p trusts, has a grant that includes each
      grant of p, a rule as generous for each rule of p, and as long a limit. */
  ghost predicate AllowsMore(q: EffectivePolicy, p: EffectivePolicy) {
    && (forall id :: id in p.trustedProjects ==>
          id in q.trustedProjects && q.trustedProjects[id] == p.trustedProjects[id])
    && (forall i :: 0 <= i < |p.grants| ==> IncludedInSome(q.grants, p.grants[i]))
    && (forall k :: k in p.rules ==> k in q.rules && RuleAllowsMore(q.rules[k], p.rules[k]))
    && p.maxApprovalTtlMs <= q.maxApprovalTtlMs
  }

  /** A decision at least as good for whoever proposes the action. */
  predicate AtLeastAsGood(d: PolicyDecision, e: PolicyDecision) {
    || e.Denied? || d.AllowedWithoutApproval?
    || (d.ApprovalRequired? && e.ApprovalRequired? && e.requirement.maxTtlMs <= d.requirement.maxTtlMs)
  }

  lemma WiderGrantsAuthorize(q: EffectivePolicy, p: EffectivePolicy, a: ActionProposal)
    requires AllowsMore(q, p) && ValidPolicy(q) && SomeGrantAuthorizes(p, a)
    ensures SomeGrantAuthorizes(q, a)
  {
    hide Includes, Matches, ValidScope, ValidRule, PolicyFields;
    var i :| 0 <= i < |p.grants| && Authorizes(p.grants[i], a);
    assert IncludedInSome(q.grants, p.grants[i]);
    var j :| 0 <= j < |q.grants| && Includes(q.grants[j], p.grants[i]);
    MatchingIsInclusion(p.grants[i], q.grants[j], a);
    assert Authorizes(q.grants[j], a);
  }

  /** A policy that allows more never decides against an action where the other decides for it,
      unless it has become invalid, which denies everything. */
  lemma DecisionsAreMonotone(
      hash: Hash, a: ActionProposal, q: EffectivePolicy, p: EffectivePolicy, s: ExecutionState, now: U64)
    requires AllowsMore(q, p)
    ensures var d, e := EvaluateAction(hash, a, q, s, now), EvaluateAction(hash, a, p, s, now);
            AtLeastAsGood(d, e) <==> ValidPolicy(q) || e.Denied?
  {
    hide ValidShape, ValidPolicy, ValidState, SomeGrantAuthorizes, FitsDigest, IncludedInSome;
    hide ActionDigest, PolicyDigest, BindingDigest;
    DeniedUnlessAdmissible(hash, a, p, s, now);
    if Admissible(a, p, s) && ValidPolicy(q) {
      WiderGrantsAuthorize(q, p, a);
    }
  }

  /** What may go ahead without approval reads files, is covered by some grant, and reads only
      paths of that grant; everything that changes or discloses anything needs an approval. */
  lemma OnlyReadsGoUnapproved(hash: Hash, a: ActionProposal, p: EffectivePolicy, s: ExecutionState, now: U64)
    requires EvaluateAction(hash, a, p, s, now).AllowedWithoutApproval?
    ensures a.operation.ReadFiles?
    ensures exists i :: 0 <= i < |p.grants| && CoversReads(p.grants[i], a)
  {
    hide ValidPaths, ValidId, ValidProvenance, ValidOperation, ValidLifetime, ValidScope, FitsDigest;
    hide ActionDigest, PolicyDigest, BindingDigest, PolicyFields;
    assert ValidRule(KindOf(a.requestedCapability), AllowWithoutApproval);
    assert Matches(a.requestedCapability, a);
    var i :| 0 <= i < |p.grants| && Authorizes(p.grants[i], a);
    assert CoversReads(p.grants[i], a);
  }

  predicate CoversReads(g: CapabilityScope, a: ActionProposal) {
    && a.operation.ReadFiles? && g.ProjectPaths? && g.capability == Read
    && g.projectId == a.projectId && g.runId == a.runId && g.worktreeId == a.operation.worktreeId
    && Subset(a.operation.paths, g.paths)
  }

  /** The requirement depends on the clock only through the action's lifetime. */
  lemma RequirementIgnoresClock(hash: Hash, a: ActionProposal, p: EffectivePolicy, s: ExecutionState, now: U64,
      later: U64)
    requires EvaluateAction(hash, a, p, s, now).ApprovalRequired? && a.createdAt <= later < a.expiresAt
    ensures EvaluateAction(hash, a, p, s, later) == EvaluateAction(hash, a, p, s, now)
    ensures KindOf(a.requestedCapability) in p.rules
    ensures var r := EvaluateAction(hash, a, p, s, now).requirement;
            && r.actionId == a.actionId && r.actionCreatedAt == a.createdAt && r.actionExpiresAt == a.expiresAt
            && r.actionDigest == ActionDigest(hash, a) && r.policyDigest == PolicyDigest(hash, p)
            && r.bindingDigest == Bound(hash, a, p, s)
            && (var rule := p.rules[KindOf(a.requestedCapability)];
                rule.RequireApproval? && r.maxTtlMs <= p.maxApprovalTtlMs && r.maxTtlMs <= rule.maxTtlMs
                && (r.maxTtlMs == p.maxApprovalTtlMs || r.maxTtlMs == rule.maxTtlMs))
  {
    hide ValidShape, ValidState, SomeGrantAuthorizes, FitsDigest, ActionDigest, PolicyDigest, BindingDigest,
         PolicyFields;
  }
}
