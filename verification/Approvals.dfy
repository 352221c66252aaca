/** Approvals: issued for an evaluated requirement, and accepted later only for the very same
    action, policy and observed state. */
module Approvals {
  import opened ActionEncoding
  import opened Actions
  import opened Canonical
  import opened Characters
  import opened Digests
  import opened Policies
  import opened PolicyEncoding
  import opened Records
  import opened Wrappers

  const U64_MAX: nat := 0xFFFF_FFFF_FFFF_FFFF

  datatype ApprovalDecision = Approved | Refused

  datatype ApprovalStatus = Unused | Consumed | Revoked

  datatype ApprovalGrant = ApprovalGrant(
    approvalId: string, actionId: string, actorId: string, decision: ApprovalDecision, status: ApprovalStatus,
    actionDigest: string, policyDigest: string, bindingDigest: string, issuedAt: U64, expiresAt: U64)

  datatype AuthorizedAction = AuthorizedAction(approvalId: string, actionId: string, bindingDigest: string)

  datatype ApprovalError =
    InvalidIdentity | InvalidLifetime | DeniedApproval | NotUnused | RequirementChanged | InvalidTimeWindow

  function Approve(r: ApprovalRequirement, approvalId: string, actorId: string, issuedAt: U64, ttlMs: U64):
    Result<ApprovalGrant, ApprovalError>
  {
    if !ValidId(approvalId) || !ValidId(actorId) then Failure(InvalidIdentity)
    else if issuedAt + ttlMs > U64_MAX then Failure(InvalidLifetime)
    else if ttlMs == 0 || ttlMs > r.maxTtlMs || issuedAt < r.actionCreatedAt || issuedAt >= r.actionExpiresAt
            || issuedAt + ttlMs > r.actionExpiresAt then Failure(InvalidLifetime)
    else
      Success(ApprovalGrant(approvalId, r.actionId, actorId, Approved, Unused, r.actionDigest, r.policyDigest,
                            r.bindingDigest, issuedAt, issuedAt + ttlMs))
  }

  function VerifyApproval(hash: Hash, a: ActionProposal, p: EffectivePolicy, s: ExecutionState, g: ApprovalGrant,
      now: U64):
    Result<AuthorizedAction, ApprovalError>
  {
    if g.decision != Approved then Failure(DeniedApproval)
    else if !ValidId(g.approvalId) || !ValidId(g.actorId) then Failure(InvalidIdentity)
    else if g.status != Unused then Failure(NotUnused)
    else if now < g.issuedAt || now >= g.expiresAt then Failure(InvalidTimeWindow)
    else
      match EvaluateAction(hash, a, p, s, now)
      case ApprovalRequired(r) =>
        if g.expiresAt <= g.issuedAt || g.expiresAt - g.issuedAt > r.maxTtlMs
           || g.issuedAt < r.actionCreatedAt || g.expiresAt > r.actionExpiresAt
           || g.actionId != r.actionId || g.actionDigest != r.actionDigest
           || g.policyDigest != r.policyDigest || g.bindingDigest != r.bindingDigest
           || !Sha256Text(g.actionDigest) || !Sha256Text(g.policyDigest) || !Sha256Text(g.bindingDigest)
        then Failure(RequirementChanged)
        else Success(AuthorizedAction(g.approvalId, g.actionId, g.bindingDigest))
      case _ => Failure(RequirementChanged)
  }

  // --------------------------------------------------- exact conditions

  /** The time for which an approval is asked lies inside the action's lifetime and the limit. */
  predicate FitsRequirement(r: ApprovalRequirement, issuedAt: nat, expiresAt: nat) {
    && r.actionCreatedAt <= issuedAt < expiresAt <= r.actionExpiresAt
    && expiresAt - issuedAt <= r.maxTtlMs
  }

  /** An approval is issued if and only if both identities are well-formed and the time asked for
      fits, and it then says what the caller said and what was evaluated. */
  lemma ApproveExactly(r: ApprovalRequirement, approvalId: string, actorId: string, issuedAt: U64, ttlMs: U64)
    ensures var result := Approve(r, approvalId, actorId, issuedAt, ttlMs);
            && (result.Success? <==>
                  ValidId(approvalId) && ValidId(actorId) && FitsRequirement(r, issuedAt, issuedAt + ttlMs))
            && (result == Failure(InvalidIdentity) <==> !ValidId(approvalId) || !ValidId(actorId))
            && (result.Failure? && result.error != InvalidIdentity ==> result.error == InvalidLifetime)
            && (result.Success? ==>
                  var g := result.value;
                  && g.approvalId == approvalId && g.actorId == actorId
                  && g.issuedAt == issuedAt && g.expiresAt == issuedAt + ttlMs
                  && g.decision == Approved && g.status == Unused && g.actionId == r.actionId
                  && g.actionDigest == r.actionDigest && g.policyDigest == r.policyDigest
                  && g.bindingDigest == r.bindingDigest)
  {
    hide ValidId;
  }

  /** The grant is one that could have been issued for this requirement. */
  predicate AnswersRequirement(g: ApprovalGrant, r: ApprovalRequirement) {
    && g.actionId == r.actionId && g.actionDigest == r.actionDigest && g.policyDigest == r.policyDigest
    && g.bindingDigest == r.bindingDigest && FitsRequirement(r, g.issuedAt, g.expiresAt)
  }

  /** Any grant at all, issued here or not, is accepted if and only if it is approved, well-formed,
      unused and in time, and answers the requirement of a fresh evaluation; a refusal names the
      first of these that fails. */
  lemma VerifyExactly(hash: Hash, a: ActionProposal, p: EffectivePolicy, s: ExecutionState, g: ApprovalGrant, now: U64)
    requires Sha256Sized(hash)
    ensures var result, d := VerifyApproval(hash, a, p, s, g, now), EvaluateAction(hash, a, p, s, now);
            var named := ValidId(g.approvalId) && ValidId(g.actorId);
            var inTime := g.issuedAt <= now < g.expiresAt;
            var answers := d.ApprovalRequired? && AnswersRequirement(g, d.requirement);
            && (result.Success? <==> g.decision == Approved && named && g.status == Unused && inTime && answers)
            && (result.Success? ==> result.value == AuthorizedAction(g.approvalId, a.actionId, Bound(hash, a, p, s)))
            && (result == Failure(DeniedApproval) <==> g.decision != Approved)
            && (result == Failure(InvalidIdentity) <==> g.decision == Approved && !named)
            && (result == Failure(NotUnused) <==> g.decision == Approved && named && g.status != Unused)
            && (result == Failure(InvalidTimeWindow) <==>
                  g.decision == Approved && named && g.status == Unused && !inTime)
            && (result == Failure(RequirementChanged) <==>
                  g.decision == Approved && named && g.status == Unused && inTime && !answers)
  {
    hide EvaluateAction, ValidId, Sha256Sized, Sha256Text, DomainDigest, Record, Text, FitsDigest, LeftToRule, RuleOf;
    RuleDecides(hash, a, p, s, now);
    DigestsAreValid(hash, ACTION_DOMAIN, Text(Record(ActionFields(a))));
    DigestsAreValid(hash, POLICY_DOMAIN, Text(Record(PolicyFields(p))));
    DigestsAreValid(hash, BINDING_DOMAIN, Text(Record(BindingFields(ActionDigest(hash, a), PolicyDigest(hash, p), s))));
  }

  // ------------------------------------------------ what a digest pins down

  /** The texts hashed for an action, a policy and a state. */
  ghost function HashedFor(hash: Hash, a: ActionProposal, p: EffectivePolicy, s: ExecutionState): set<string> {
    { ACTION_DOMAIN + Text(Record(ActionFields(a))),
      POLICY_DOMAIN + Text(Record(PolicyFields(p))),
      BINDING_DOMAIN + Text(Record(BindingFields(ActionDigest(hash, a), PolicyDigest(hash, p), s))) }
  }

  lemma SameAction(hash: Hash, inputs: set<string>, a: ActionProposal, b: ActionProposal)
    requires CollisionFree(hash, inputs)
    requires ACTION_DOMAIN + Text(Record(ActionFields(a))) in inputs
             && ACTION_DOMAIN + Text(Record(ActionFields(b))) in inputs
    requires ActionDigest(hash, a) == ActionDigest(hash, b)
    ensures a == b
  {
    hide Text, Record, ActionFields, DomainDigest;
    var x, y := Text(Record(ActionFields(a))), Text(Record(ActionFields(b)));
    DigestDeterminesInput(hash, inputs, ACTION_DOMAIN, x, ACTION_DOMAIN, y);
    DomainsAreSeparate(ACTION_DOMAIN, x, ACTION_DOMAIN, y);
    ActionTextIsInjective(a, b);
  }

  lemma SamePolicy(hash: Hash, inputs: set<string>, p: EffectivePolicy, q: EffectivePolicy)
    requires CollisionFree(hash, inputs)
    requires POLICY_DOMAIN + Text(Record(PolicyFields(p))) in inputs
             && POLICY_DOMAIN + Text(Record(PolicyFields(q))) in inputs
    requires PolicyDigest(hash, p) == PolicyDigest(hash, q)
    ensures p == q
  {
    hide Text, Record, PolicyFields, DomainDigest;
    var x, y := Text(Record(PolicyFields(p))), Text(Record(PolicyFields(q)));
    DigestDeterminesInput(hash, inputs, POLICY_DOMAIN, x, POLICY_DOMAIN, y);
    DomainsAreSeparate(POLICY_DOMAIN, x, POLICY_DOMAIN, y);
    PolicyTextIsInjective(p, q);
  }

  /** The binding digest alone pins down the action, the policy and the whole observed state. */
  lemma BindingPinsEverything(hash: Hash, a: ActionProposal, p: EffectivePolicy, s: ExecutionState,
                              b: ActionProposal, q: EffectivePolicy, t: ExecutionState)
    requires CollisionFree(hash, HashedFor(hash, a, p, s) + HashedFor(hash, b, q, t))
    requires Bound(hash, a, p, s) == Bound(hash, b, q, t)
    ensures a == b && p == q && s == t
  {
    hide Text, Record, PolicyFields, ActionFields, BindingFields, DomainDigest, CollisionFree, ActionDigest,
         PolicyDigest;
    var inputs := HashedFor(hash, a, p, s) + HashedFor(hash, b, q, t);
    var x := Text(Record(BindingFields(ActionDigest(hash, a), PolicyDigest(hash, p), s)));
    var y := Text(Record(BindingFields(ActionDigest(hash, b), PolicyDigest(hash, q), t)));
    DigestDeterminesInput(hash, inputs, BINDING_DOMAIN, x, BINDING_DOMAIN, y);
    DomainsAreSeparate(BINDING_DOMAIN, x, BINDING_DOMAIN, y);
    BindingTextIsInjective(ActionDigest(hash, a), PolicyDigest(hash, p), s, ActionDigest(hash, b),
                           PolicyDigest(hash, q), t);
    SameAction(hash, inputs, a, b);
    SamePolicy(hash, inputs, p, q);
  }

  // ------------------------------------------------------------ end to end

  /** Approving the requirement of this evaluation with these arguments issued the grant. */
  ghost predicate IssuedFor(hash: Hash, a: ActionProposal, p: EffectivePolicy, s: ExecutionState, evaluatedAt: U64,
      approvalId: string, actorId: string, issuedAt: U64, ttlMs: U64, g: ApprovalGrant)
  {
    var d := EvaluateAction(hash, a, p, s, evaluatedAt);
    d.ApprovalRequired? && Approve(d.requirement, approvalId, actorId, issuedAt, ttlMs) == Success(g)
  }

  /** An issued grant says what the approver said, and carries what was evaluated. */
  lemma IssuedContents(hash: Hash, a: ActionProposal, p: EffectivePolicy, s: ExecutionState, evaluatedAt: U64,
      approvalId: string, actorId: string, issuedAt: U64, ttlMs: U64, g: ApprovalGrant)
    requires IssuedFor(hash, a, p, s, evaluatedAt, approvalId, actorId, issuedAt, ttlMs, g)
    ensures g == ApprovalGrant(approvalId, a.actionId, actorId, Approved, Unused, ActionDigest(hash, a),
                               PolicyDigest(hash, p), Bound(hash, a, p, s), issuedAt, issuedAt + ttlMs)
    ensures ValidId(approvalId) && ValidId(actorId)
    ensures a.createdAt <= issuedAt < g.expiresAt <= a.expiresAt
    ensures var limit := EvaluateAction(hash, a, p, s, evaluatedAt).requirement.maxTtlMs;
            g.expiresAt - g.issuedAt <= limit <= p.maxApprovalTtlMs
  {
    hide EvaluateAction, ActionDigest, PolicyDigest, BindingDigest, ValidId, LeftToRule, FitsDigest, RuleOf;
    var r := EvaluateAction(hash, a, p, s, evaluatedAt).requirement;
    RuleDecides(hash, a, p, s, evaluatedAt);
    ApproveExactly(r, approvalId, actorId, issuedAt, ttlMs);
  }

  lemma InsideLifetime(hash: Hash, a: ActionProposal, p: EffectivePolicy, s: ExecutionState, now: U64)
    requires EvaluateAction(hash, a, p, s, now).ApprovalRequired?
    ensures a.createdAt <= now < a.expiresAt
  {
    hide EvaluateAction, Admissible;
    DeniedUnlessAdmissible(hash, a, p, s, now);
  }

  /** While nothing has changed, an issued grant verifies from its issue until its expiry. */
  lemma UnchangedVerifies(hash: Hash, a: ActionProposal, p: EffectivePolicy, s: ExecutionState, evaluatedAt: U64,
      approvalId: string, actorId: string, issuedAt: U64, ttlMs: U64, g: ApprovalGrant, now: U64)
    requires Sha256Sized(hash) && IssuedFor(hash, a, p, s, evaluatedAt, approvalId, actorId, issuedAt, ttlMs, g)
    requires issuedAt <= now < issuedAt + ttlMs
    ensures VerifyApproval(hash, a, p, s, g, now)
            == Success(AuthorizedAction(approvalId, a.actionId, Bound(hash, a, p, s)))
  {
    hide EvaluateAction, VerifyApproval, ValidId, Sha256Sized, Approve;
    IssuedContents(hash, a, p, s, evaluatedAt, approvalId, actorId, issuedAt, ttlMs, g);
    InsideLifetime(hash, a, p, s, evaluatedAt);
    RequirementIgnoresClock(hash, a, p, s, evaluatedAt, now);
    ApproveExactly(EvaluateAction(hash, a, p, s, evaluatedAt).requirement, approvalId, actorId, issuedAt, ttlMs);
    VerifyExactly(hash, a, p, s, g, now);
  }

  lemma VerifiedMeansBound(hash: Hash, a: ActionProposal, p: EffectivePolicy, s: ExecutionState, g: ApprovalGrant,
      now: U64)
    requires Sha256Sized(hash) && VerifyApproval(hash, a, p, s, g, now).Success?
    ensures g.status == Unused && g.issuedAt <= now < g.expiresAt && g.bindingDigest == Bound(hash, a, p, s)
  {
    hide EvaluateAction, VerifyApproval, ActionDigest, PolicyDigest, BindingDigest, ValidId, Sha256Sized;
    hide LeftToRule, FitsDigest, RuleOf;
    VerifyExactly(hash, a, p, s, g, now);
    RuleDecides(hash, a, p, s, now);
  }

  /** A grant issued for one evaluation, in whatever status it is now, authorizes an action under
      a policy and an observed state if and only if it is still unused, the clock is between its
      issue and its expiry, and action, policy and state are those it was issued for. */
  lemma ApprovalBindsExactly(hash: Hash, a: ActionProposal, p: EffectivePolicy, s: ExecutionState, evaluatedAt: U64,
      approvalId: string, actorId: string, issuedAt: U64, ttlMs: U64, g: ApprovalGrant, status: ApprovalStatus,
      b: ActionProposal, q: EffectivePolicy, t: ExecutionState, now: U64)
    requires Sha256Sized(hash) && CollisionFree(hash, HashedFor(hash, a, p, s) + HashedFor(hash, b, q, t))
    requires IssuedFor(hash, a, p, s, evaluatedAt, approvalId, actorId, issuedAt, ttlMs, g)
    ensures VerifyApproval(hash, b, q, t, g.(status := status), now).Success?
            <==> status == Unused && issuedAt <= now < issuedAt + ttlMs && b == a && q == p && t == s
  {
    hide VerifyApproval, EvaluateAction, CollisionFree, HashedFor, IssuedFor, Sha256Sized, Bound;
    IssuedContents(hash, a, p, s, evaluatedAt, approvalId, actorId, issuedAt, ttlMs, g);
    if VerifyApproval(hash, b, q, t, g.(status := status), now).Success? {
      VerifiedMeansBound(hash, b, q, t, g.(status := status), now);
      BindingPinsEverything(hash, a, p, s, b, q, t);
    }
    if status == Unused && issuedAt <= now < issuedAt + ttlMs {
      assert g.(status := status) == g;
      UnchangedVerifies(hash, a, p, s, evaluatedAt, approvalId, actorId, issuedAt, ttlMs, g, now);
    }
  }
}
