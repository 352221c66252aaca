/** Reading policies and bindings back from their serialized form. */
module PolicyEncoding {
  import opened ActionEncoding
  import opened Actions
  import opened Canonical
  import opened CanonicalReading
  import opened Policies
  import opened Records
  import opened Wrappers

  // --------------------------------------------------------------- reading

  function ReadRule(v: Value): Option<RuleDecision> {
    var decision :- StringAt(v, "decision");
    if decision == "allow_without_approval" && Members(v, {"decision"}) then Some(AllowWithoutApproval)
    else if decision == "deny" && Members(v, {"decision"}) then Some(Deny)
    else if decision == "require_approval" && Members(v, {"decision", "max_ttl_ms"}) then
      var limit :- U64At(v, "max_ttl_ms");
      Some(RequireApproval(limit))
    else None
  }

  function ReadKind(name: string): Option<CapabilityKind> {
    if name == "project_read" then Some(ProjectRead)
    else if name == "project_apply_patch" then Some(ProjectApplyPatch)
    else if name == "broker_command" then Some(BrokerCommandKind)
    else if name == "provider_submit" then Some(ProviderSubmit)
    else if name == "credential_use" then Some(CredentialUse)
    else if name == "worktree_integrate" then Some(WorktreeIntegrate)
    else None
  }

  lemma KindsComeFromOneName()
    ensures forall a, b :: ReadKind(a).Some? && ReadKind(a) == ReadKind(b) ==> a == b
  {
  }

  function ReadRules(v: Value): Option<map<CapabilityKind, RuleDecision>> {
    if v.Obj? && forall k :: k in v.entries ==> ReadKind(k).Some? && ReadRule(v.entries[k]).Some? then
      KindsComeFromOneName();
      Some(map k | k in v.entries && ReadKind(k).Some? && ReadRule(v.entries[k]).Some? ::
             ReadKind(k).value := ReadRule(v.entries[k]).value)
    else None
  }

  function ReadTrusted(v: Value): Option<map<string, string>> {
    if v.Obj? && forall id :: id in v.entries ==> v.entries[id].Str?
    then Some(map id | id in v.entries && v.entries[id].Str? :: v.entries[id].s)
    else None
  }

  function ReadGrants(v: Value): Option<seq<CapabilityScope>> {
    match v
    case Arr(items) =>
      if forall i :: 0 <= i < |items| ==> ReadScope(items[i]).Some?
      then Some(seq(|items|, i requires 0 <= i < |items| && ReadScope(items[i]).Some? => ReadScope(items[i]).value))
      else None
    case _ => None
  }

  function ReadPolicy(v: Value): Option<EffectivePolicy> {
    var version :- U16At(v, "schema_version");
    var revision :- StringAt(v, "revision");
    var projects :- MemberOf(v, "trusted_projects");
    var trusted :- ReadTrusted(projects);
    var scopes :- MemberOf(v, "grants");
    var grants :- ReadGrants(scopes);
    var decisions :- MemberOf(v, "rules");
    var rules :- ReadRules(decisions);
    var limit :- U64At(v, "max_approval_ttl_ms");
    if Members(v, {"schema_version", "revision", "trusted_projects", "grants", "rules", "max_approval_ttl_ms"})
    then Some(EffectivePolicy(version, revision, trusted, grants, rules, limit)) else None
  }

  /** What a binding ties together. */
  datatype Binding = Binding(actionDigest: string, policyDigest: string, state: ExecutionState)

  function ReadOptionalString(v: Value): Option<Option<string>> {
    match v case Null => Some(None) case Str(s) => Some(Some(s)) case _ => None
  }

  function ReadBinding(v: Value): Option<Binding> {
    var action :- StringAt(v, "action_digest");
    var policy :- StringAt(v, "policy_digest");
    var project :- StringAt(v, "project_state");
    var resource :- StringAt(v, "resource_state");
    var target :- MemberOf(v, "destination_state");
    var destination :- ReadOptionalString(target);
    if Members(v, {"action_digest", "policy_digest", "project_state", "resource_state", "destination_state"})
    then Some(Binding(action, policy, ExecutionState(project, resource, destination))) else None
  }

  // ------------------------------------------------------------ round trips

  lemma RuleIsRead(r: RuleDecision)
    ensures FloatFree(Record(RuleFields(r))) && ReadRule(Record(RuleFields(r))) == Some(r)
  {
    hide Record, MapOf;
    var fields := RuleFields(r);
    assert |"allow_without_approval"| == 22 && |"deny"| == 4 && |"require_approval"| == 16;
    assert fields[0].name == "decision" && (r.RequireApproval? ==> fields[1].name == "max_ttl_ms");
    MembersOfRecord(fields);
    assert (set i | 0 <= i < |fields| :: fields[i].name)
        == if r.RequireApproval? then {"decision", "max_ttl_ms"} else {"decision"};
    RecordIsFloatFree(fields);
  }

  lemma KindIsRead(k: CapabilityKind)
    ensures ReadKind(KindName(k)) == Some(k)
  {
    assert |"project_read"| == 12 && |"project_apply_patch"| == 19 && |"broker_command"| == 14;
    assert |"provider_submit"| == 15 && |"credential_use"| == 14 && |"worktree_integrate"| == 18;
    assert "broker_command"[0] == 'b' && "credential_use"[0] == 'c';
  }

  lemma TrustedIsRead(trusted: map<string, string>)
    ensures FloatFree(TrustedValue(trusted)) && ReadTrusted(TrustedValue(trusted)) == Some(trusted)
  {
    var entries := TrustedValue(trusted).entries;
    assert entries.Keys == trusted.Keys && forall id :: id in trusted ==> entries[id] == Str(trusted[id]);
    assert ReadTrusted(TrustedValue(trusted)).value == trusted;
  }

  lemma RuleEntry(rules: map<CapabilityKind, RuleDecision>, k: CapabilityKind)
    ensures k in rules <==> KindName(k) in RulesValue(rules).entries
    ensures k in rules ==> RulesValue(rules).entries[KindName(k)] == Record(RuleFields(rules[k]))
  {
    hide Record, KindName;
    KindNamesAreDistinct();
  }

  lemma RuleEntryName(rules: map<CapabilityKind, RuleDecision>, name: string)
    requires name in RulesValue(rules).entries
    ensures exists k :: k in rules && KindName(k) == name
  {
    hide Record, KindName;
    KindNamesAreDistinct();
  }

  lemma RulesAreRead(rules: map<CapabilityKind, RuleDecision>)
    ensures FloatFree(RulesValue(rules)) && ReadRules(RulesValue(rules)) == Some(rules)
  {
    hide RulesValue, Record, KindName, ReadKind, ReadRule, RuleFields;
    assert RulesValue(rules).Obj? by { RulesAreAnObject(rules); }
    var entries := RulesValue(rules).entries;
    forall name | name in entries
      ensures ReadKind(name).Some? && ReadKind(name).value in rules && name == KindName(ReadKind(name).value)
      ensures ReadRule(entries[name]) == Some(rules[ReadKind(name).value]) && FloatFree(entries[name])
    {
      RuleEntryName(rules, name);
      var k :| k in rules && KindName(k) == name;
      KindIsRead(k);
      RuleEntry(rules, k);
      RuleIsRead(rules[k]);
    }
    var read := ReadRules(RulesValue(rules)).value;
    forall k | k in rules ensures k in read && read[k] == rules[k] {
      RuleEntry(rules, k);
      KindIsRead(k);
      assert KindName(k) in entries;
    }
    assert read == rules;
  }

  lemma RulesAreAnObject(rules: map<CapabilityKind, RuleDecision>)
    ensures RulesValue(rules).Obj?
  {
  }

  lemma GrantsAreRead(grants: seq<CapabilityScope>)
    ensures FloatFree(GrantsValue(grants)) && ReadGrants(GrantsValue(grants)) == Some(grants)
  {
    hide Record, ScopeFields, ReadScope;
    var items := GrantsValue(grants).items;
    forall i | 0 <= i < |items| ensures ReadScope(items[i]) == Some(grants[i]) && FloatFree(items[i]) {
      ScopeIsRead(grants[i]);
    }
    assert ReadGrants(GrantsValue(grants)).value == grants;
  }

  lemma PolicyNames(p: EffectivePolicy)
    ensures var fields := PolicyFields(p);
            && DistinctNames(fields)
            && (set i | 0 <= i < |fields| :: fields[i].name)
                == {"schema_version", "revision", "trusted_projects", "grants", "rules", "max_approval_ttl_ms"}
  {
    hide TrustedValue, GrantsValue, RulesValue;
    var fields := PolicyFields(p);
    assert fields[0].name == "schema_version" && fields[1].name == "revision" && fields[2].name == "trusted_projects";
    assert fields[3].name == "grants" && fields[4].name == "rules" && fields[5].name == "max_approval_ttl_ms";
  }

  /** Reading the serialized form of a policy gives back the policy. */
  lemma PolicyIsRead(p: EffectivePolicy)
    ensures FloatFree(Record(PolicyFields(p))) && ReadPolicy(Record(PolicyFields(p))) == Some(p)
  {
    hide Record, MapOf, TrustedValue, GrantsValue, RulesValue, ReadTrusted, ReadGrants, ReadRules, DistinctNames;
    var fields := PolicyFields(p);
    PolicyNames(p);
    TrustedIsRead(p.trustedProjects);
    GrantsAreRead(p.grants);
    RulesAreRead(p.rules);
    assert fields[0].name == "schema_version" && fields[1].name == "revision" && fields[2].name == "trusted_projects";
    assert fields[3].name == "grants" && fields[4].name == "rules" && fields[5].name == "max_approval_ttl_ms";
    MembersOfRecord(fields);
    RecordIsFloatFree(fields);
  }

  /** The canonical text of a policy is JSON text from which the policy can be read back. */
  lemma PolicyTextIsRead(p: EffectivePolicy)
    ensures var v := Record(PolicyFields(p)); IsRead(v, "") && ReadPolicy(v) == Some(p)
  {
    hide Record, PolicyFields, ReadPolicy, IsRead;
    PolicyIsRead(p);
    TextIsRead(Record(PolicyFields(p)), "");
  }

  /** Policies with the same canonical text are the same policy. */
  lemma PolicyTextIsInjective(a: EffectivePolicy, b: EffectivePolicy)
    requires Text(Record(PolicyFields(a))) == Text(Record(PolicyFields(b)))
    ensures a == b
  {
    hide Record, PolicyFields, ReadPolicy, Text, FloatFree;
    PolicyIsRead(a);
    PolicyIsRead(b);
    TextIsInjective(Record(PolicyFields(a)), Record(PolicyFields(b)));
  }

  lemma BindingNames(ad: string, pd: string, s: ExecutionState)
    ensures var fields := BindingFields(ad, pd, s);
            && DistinctNames(fields)
            && (set i | 0 <= i < |fields| :: fields[i].name)
                == {"action_digest", "policy_digest", "project_state", "resource_state", "destination_state"}
  {
    var fields := BindingFields(ad, pd, s);
    assert fields[0].name == "action_digest" && fields[1].name == "policy_digest" && fields[2].name == "project_state";
    assert fields[3].name == "resource_state" && fields[4].name == "destination_state";
  }

  /** Reading the serialized form of a binding gives back the two digests and the state. */
  lemma BindingIsRead(ad: string, pd: string, s: ExecutionState)
    ensures ReadBinding(Record(BindingFields(ad, pd, s))) == Some(Binding(ad, pd, s))
  {
    hide Record, MapOf, DistinctNames, FloatFree;
    var fields := BindingFields(ad, pd, s);
    BindingNames(ad, pd, s);
    assert fields[0].name == "action_digest" && fields[1].name == "policy_digest" && fields[2].name == "project_state";
    assert fields[3].name == "resource_state" && fields[4].name == "destination_state";
    MembersOfRecord(fields);
  }

  lemma BindingIsFloatFree(ad: string, pd: string, s: ExecutionState)
    ensures FloatFree(Record(BindingFields(ad, pd, s)))
  {
    hide Record, MapOf, DistinctNames;
    BindingNames(ad, pd, s);
    RecordIsFloatFree(BindingFields(ad, pd, s));
  }

  /** The canonical text of a binding is JSON text from which the binding can be read back. */
  lemma BindingTextIsRead(ad: string, pd: string, s: ExecutionState)
    ensures var v := Record(BindingFields(ad, pd, s)); IsRead(v, "") && ReadBinding(v) == Some(Binding(ad, pd, s))
  {
    hide Record, BindingFields, ReadBinding, IsRead;
    BindingIsFloatFree(ad, pd, s);
    BindingIsRead(ad, pd, s);
    TextIsRead(Record(BindingFields(ad, pd, s)), "");
  }

  /** Bindings with the same canonical text tie the same digests to the same state. */
  lemma BindingTextIsInjective(ad: string, pd: string, s: ExecutionState, ad': string, pd': string, s': ExecutionState)
    requires Text(Record(BindingFields(ad, pd, s))) == Text(Record(BindingFields(ad', pd', s')))
    ensures ad == ad' && pd == pd' && s == s'
  {
    hide Record, BindingFields, ReadBinding, Text, FloatFree;
    BindingIsFloatFree(ad, pd, s);
    BindingIsFloatFree(ad', pd', s');
    BindingIsRead(ad, pd, s);
    BindingIsRead(ad', pd', s');
    TextIsInjective(Record(BindingFields(ad, pd, s)), Record(BindingFields(ad', pd', s')));
  }
}
