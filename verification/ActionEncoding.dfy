/** Reading actions and capabilities back from their serialized form, member by member: nothing is
    lost, and no member is missing or unknown. */
module ActionEncoding {
  import opened Actions
  import opened Canonical
  import opened CanonicalReading
  import opened Records
  import opened Wrappers

  // --------------------------------------------------------------- members

  /** The value is an object with exactly these members. */
  predicate Members(v: Value, names: set<string>) {
    v.Obj? && v.entries.Keys == names
  }

  function MemberOf(v: Value, name: string): Option<Value> {
    if v.Obj? && name in v.entries then Some(v.entries[name]) else None
  }

  function StringAt(v: Value, name: string): Option<string> {
    match MemberOf(v, name) case Some(Str(s)) => Some(s) case _ => None
  }

  function U64At(v: Value, name: string): Option<U64> {
    match MemberOf(v, name)
    case Some(Int(n)) => if 0 <= n then Some(n) else None
    case _ => None
  }

  function U16At(v: Value, name: string): Option<U16> {
    match MemberOf(v, name)
    case Some(Int(n)) => if 0 <= n <= 0xFFFF then Some(n) else None
    case _ => None
  }

  function StringsAt(v: Value, name: string): Option<seq<string>> {
    match MemberOf(v, name)
    case Some(Arr(items)) =>
      if forall i :: 0 <= i < |items| ==> items[i].Str?
      then Some(seq(|items|, i requires 0 <= i < |items| && items[i].Str? => items[i].s))
      else None
    case _ => None
  }

  // --------------------------------------------------------------- reading

  function ReadDestination(v: Value): Option<Destination> {
    var scheme :- StringAt(v, "scheme");
    var host :- StringAt(v, "host");
    var port :- U16At(v, "port");
    var path :- StringAt(v, "path");
    if Members(v, {"scheme", "host", "port", "path"}) then Some(Destination(scheme, host, port, path)) else None
  }

  function DestinationAt(v: Value, name: string): Option<Destination> {
    var d :- MemberOf(v, name);
    ReadDestination(d)
  }

  function ReadProvenance(v: Value): Option<Provenance> {
    var kind :- StringAt(v, "source_kind");
    var id :- StringAt(v, "source_id");
    var digest :- StringAt(v, "content_digest");
    if Members(v, {"source_kind", "source_id", "content_digest"}) then Some(Provenance(kind, id, digest)) else None
  }

  function ReadProvenances(v: Value): Option<seq<Provenance>> {
    match v
    case Arr(items) =>
      if forall i :: 0 <= i < |items| ==> ReadProvenance(items[i]).Some?
      then Some(seq(|items|, i requires 0 <= i < |items| && ReadProvenance(items[i]).Some? =>
                      ReadProvenance(items[i]).value))
      else None
    case _ => None
  }

  function ReadPathCapability(s: string): Option<PathCapability> {
    if s == "read" then Some(Read) else if s == "apply_patch" then Some(ApplyPatches) else None
  }

  function ReadProjectPaths(v: Value): Option<CapabilityScope> {
    var name :- StringAt(v, "capability");
    var capability :- ReadPathCapability(name);
    var project :- StringAt(v, "project_id");
    var run :- StringAt(v, "run_id");
    var worktree :- StringAt(v, "worktree_id");
    var paths :- StringsAt(v, "paths");
    if Members(v, {"kind", "capability", "project_id", "run_id", "worktree_id", "paths"})
    then Some(ProjectPaths(capability, project, run, worktree, paths)) else None
  }

  function ReadBrokerCommand(v: Value): Option<CapabilityScope> {
    var project :- StringAt(v, "project_id");
    var run :- StringAt(v, "run_id");
    var worktree :- StringAt(v, "worktree_id");
    var entry :- StringAt(v, "catalog_entry_id");
    if Members(v, {"kind", "project_id", "run_id", "worktree_id", "catalog_entry_id"})
    then Some(BrokerCommand(project, run, worktree, entry)) else None
  }

  function ReadProvider(v: Value): Option<CapabilityScope> {
    var project :- StringAt(v, "project_id");
    var run :- StringAt(v, "run_id");
    var provider :- StringAt(v, "provider_id");
    var account :- StringAt(v, "account_id");
    var destination :- DestinationAt(v, "destination");
    if Members(v, {"kind", "project_id", "run_id", "provider_id", "account_id", "destination"})
    then Some(Provider(project, run, provider, account, destination)) else None
  }

  function ReadCredential(v: Value): Option<CapabilityScope> {
    var project :- StringAt(v, "project_id");
    var run :- StringAt(v, "run_id");
    var provider :- StringAt(v, "provider_id");
    var account :- StringAt(v, "account_id");
    var ref :- StringAt(v, "credential_ref");
    var destination :- DestinationAt(v, "destination");
    if Members(v, {"kind", "project_id", "run_id", "provider_id", "account_id", "credential_ref", "destination"})
    then Some(Credential(project, run, provider, account, ref, destination)) else None
  }

  function ReadIntegration(v: Value): Option<CapabilityScope> {
    var project :- StringAt(v, "project_id");
    var run :- StringAt(v, "run_id");
    var worktree :- StringAt(v, "worktree_id");
    var target :- StringAt(v, "target_ref");
    if Members(v, {"kind", "project_id", "run_id", "worktree_id", "target_ref"})
    then Some(Integration(project, run, worktree, target)) else None
  }

  function ReadScope(v: Value): Option<CapabilityScope> {
    var kind :- StringAt(v, "kind");
    if kind == "project_paths" then ReadProjectPaths(v)
    else if kind == "broker_command" then ReadBrokerCommand(v)
    else if kind == "provider" then ReadProvider(v)
    else if kind == "credential" then ReadCredential(v)
    else if kind == "integration" then ReadIntegration(v)
    else None
  }

  function ReadReadFiles(v: Value): Option<ActionOperation> {
    var worktree :- StringAt(v, "worktree_id");
    var paths :- StringsAt(v, "paths");
    if Members(v, {"kind", "worktree_id", "paths"}) then Some(ReadFiles(worktree, paths)) else None
  }

  function ReadApplyPatch(v: Value): Option<ActionOperation> {
    var worktree :- StringAt(v, "worktree_id");
    var digest :- StringAt(v, "patch_digest");
    var bytes :- U64At(v, "patch_bytes");
    var paths :- StringsAt(v, "affected_paths");
    if Members(v, {"kind", "worktree_id", "patch_digest", "patch_bytes", "affected_paths"})
    then Some(ApplyPatch(worktree, digest, bytes, paths)) else None
  }

  function ReadRunBrokerCommand(v: Value): Option<ActionOperation> {
    var worktree :- StringAt(v, "worktree_id");
    var entry :- StringAt(v, "catalog_entry_id");
    var entryDigest :- StringAt(v, "catalog_entry_digest");
    var executable :- StringAt(v, "executable_digest");
    var cwd :- StringAt(v, "cwd");
    var argv :- StringsAt(v, "argv");
    if Members(v, {"kind", "worktree_id", "catalog_entry_id", "catalog_entry_digest", "executable_digest", "cwd",
                   "argv"})
    then Some(RunBrokerCommand(worktree, entry, entryDigest, executable, cwd, argv)) else None
  }

  function ReadSubmitProviderRequest(v: Value): Option<ActionOperation> {
    var provider :- StringAt(v, "provider_id");
    var account :- StringAt(v, "account_id");
    var destination :- DestinationAt(v, "destination");
    var digest :- StringAt(v, "request_digest");
    var bytes :- U64At(v, "request_bytes");
    var classes :- StringsAt(v, "data_classes");
    if Members(v, {"kind", "provider_id", "account_id", "destination", "request_digest", "request_bytes",
                   "data_classes"})
    then Some(SubmitProviderRequest(provider, account, destination, digest, bytes, classes)) else None
  }

  function ReadUseCredential(v: Value): Option<ActionOperation> {
    var provider :- StringAt(v, "provider_id");
    var account :- StringAt(v, "account_id");
    var ref :- StringAt(v, "credential_ref");
    var destination :- DestinationAt(v, "destination");
    if Members(v, {"kind", "provider_id", "account_id", "credential_ref", "destination"})
    then Some(UseCredential(provider, account, ref, destination)) else None
  }

  function ReadIntegrateWorktree(v: Value): Option<ActionOperation> {
    var worktree :- StringAt(v, "worktree_id");
    var sourceRef :- StringAt(v, "source_ref");
    var sourceOid :- StringAt(v, "source_oid");
    var targetRef :- StringAt(v, "target_ref");
    var targetOid :- StringAt(v, "expected_target_oid");
    var digest :- StringAt(v, "diff_digest");
    if Members(v, {"kind", "worktree_id", "source_ref", "source_oid", "target_ref", "expected_target_oid",
                   "diff_digest"})
    then Some(IntegrateWorktree(worktree, sourceRef, sourceOid, targetRef, targetOid, digest)) else None
  }

  function ReadOperation(v: Value): Option<ActionOperation> {
    var kind :- StringAt(v, "kind");
    if kind == "read_files" then ReadReadFiles(v)
    else if kind == "apply_patch" then ReadApplyPatch(v)
    else if kind == "run_broker_command" then ReadRunBrokerCommand(v)
    else if kind == "submit_provider_request" then ReadSubmitProviderRequest(v)
    else if kind == "use_credential" then ReadUseCredential(v)
    else if kind == "integrate_worktree" then ReadIntegrateWorktree(v)
    else None
  }

  function ReadAction(v: Value): Option<ActionProposal> {
    var version :- U16At(v, "schema_version");
    var action :- StringAt(v, "action_id");
    var run :- StringAt(v, "run_id");
    var project :- StringAt(v, "project_id");
    var requested :- MemberOf(v, "requested_capability");
    var capability :- ReadScope(requested);
    var proposed :- MemberOf(v, "operation");
    var operation :- ReadOperation(proposed);
    var sources :- MemberOf(v, "provenance");
    var provenance :- ReadProvenances(sources);
    var created :- U64At(v, "created_at_unix_ms");
    var expires :- U64At(v, "expires_at_unix_ms");
    if Members(v, {"schema_version", "action_id", "run_id", "project_id", "requested_capability", "operation",
                   "provenance", "created_at_unix_ms", "expires_at_unix_ms"})
    then Some(ActionProposal(version, action, run, project, capability, operation, provenance, created, expires))
    else None
  }

  // ------------------------------------------------------------ round trips

  /** The members of a record of distinct fields, by name. */
  lemma MembersOfRecord(fields: seq<Field>)
    requires DistinctNames(fields)
    ensures forall i :: 0 <= i < |fields| ==> MemberOf(Record(fields), fields[i].name) == Some(fields[i].value)
    ensures Members(Record(fields), set i | 0 <= i < |fields| :: fields[i].name)
  {
    hide MapOf;
    FieldsAreEntries(fields);
  }

  lemma TextsAreFloatFree(strings: seq<string>)
    ensures FloatFree(Texts(strings))
  {
  }

  lemma StringsAreRead(v: Value, name: string, strings: seq<string>)
    requires MemberOf(v, name) == Some(Texts(strings))
    ensures StringsAt(v, name) == Some(strings)
  {
    var items := Texts(strings).items;
    assert forall i :: 0 <= i < |items| ==> items[i] == Str(strings[i]);
    assert StringsAt(v, name).value == strings;
  }

  lemma DestinationIsRead(d: Destination)
    ensures DistinctNames(DestinationFields(d)) && FloatFree(Record(DestinationFields(d)))
    ensures ReadDestination(Record(DestinationFields(d))) == Some(d)
  {
    hide Record, MapOf;
    var fields := DestinationFields(d);
    RecordIsFloatFree(fields);
    MembersOfRecord(fields);
    assert fields[0].name == "scheme" && fields[1].name == "host" && fields[2].name == "port";
    assert fields[3].name == "path";
    assert (set i | 0 <= i < |fields| :: fields[i].name) == {"scheme", "host", "port", "path"};
  }

  lemma ProvenanceIsRead(p: Provenance)
    ensures DistinctNames(ProvenanceFields(p)) && FloatFree(Record(ProvenanceFields(p)))
    ensures ReadProvenance(Record(ProvenanceFields(p))) == Some(p)
  {
    hide Record, MapOf;
    var fields := ProvenanceFields(p);
    RecordIsFloatFree(fields);
    MembersOfRecord(fields);
    assert fields[0].name == "source_kind" && fields[1].name == "source_id" && fields[2].name == "content_digest";
    assert (set i | 0 <= i < |fields| :: fields[i].name) == {"source_kind", "source_id", "content_digest"};
  }

  // ---------------------------------------------------------------- scopes

  lemma ProjectPathsNames(s: CapabilityScope)
    requires s.ProjectPaths?
    ensures var fields := ScopeFields(s);
            && DistinctNames(fields)
            && (set i | 0 <= i < |fields| :: fields[i].name)
                == {"kind", "capability", "project_id", "run_id", "worktree_id", "paths"}
  {
    hide Record, Texts, DestinationFields;
    var fields := ScopeFields(s);
    assert |fields| == 6;
    assert fields[0].name == "kind" && fields[1].name == "capability" && fields[2].name == "project_id";
    assert fields[3].name == "run_id" && fields[4].name == "worktree_id" && fields[5].name == "paths";
  }

  lemma ProjectPathsIsRead(s: CapabilityScope)
    requires s.ProjectPaths?
    ensures StringAt(Record(ScopeFields(s)), "kind") == Some("project_paths")
    ensures ReadProjectPaths(Record(ScopeFields(s))) == Some(s)
  {
    hide Record, MapOf, Texts, DestinationFields, StringsAt, ReadDestination, DistinctNames;
    var fields, v := ScopeFields(s), Record(ScopeFields(s));
    ProjectPathsNames(s);
    MembersOfRecord(fields);
    StringsAreRead(v, "paths", s.paths);
    assert |"read"| != |"apply_patch"|;
    assert fields[0].name == "kind" && fields[1].name == "capability" && fields[2].name == "project_id";
    assert fields[3].name == "run_id" && fields[4].name == "worktree_id" && fields[5].name == "paths";
  }

  lemma BrokerCommandNames(s: CapabilityScope)
    requires s.BrokerCommand?
    ensures var fields := ScopeFields(s);
            && DistinctNames(fields)
            && (set i | 0 <= i < |fields| :: fields[i].name)
                == {"kind", "project_id", "run_id", "worktree_id", "catalog_entry_id"}
  {
    hide Record, Texts, DestinationFields;
    var fields := ScopeFields(s);
    assert fields[0].name == "kind" && fields[1].name == "project_id" && fields[2].name == "run_id";
    assert fields[3].name == "worktree_id" && fields[4].name == "catalog_entry_id";
  }

  lemma BrokerCommandIsRead(s: CapabilityScope)
    requires s.BrokerCommand?
    ensures StringAt(Record(ScopeFields(s)), "kind") == Some("broker_command")
    ensures ReadBrokerCommand(Record(ScopeFields(s))) == Some(s)
  {
    hide Record, MapOf, Texts, DestinationFields, StringsAt, ReadDestination, DistinctNames;
    var fields, v := ScopeFields(s), Record(ScopeFields(s));
    BrokerCommandNames(s);
    MembersOfRecord(fields);
    assert fields[0].name == "kind" && fields[1].name == "project_id" && fields[2].name == "run_id";
    assert fields[3].name == "worktree_id" && fields[4].name == "catalog_entry_id";
  }

  lemma ProviderNames(s: CapabilityScope)
    requires s.Provider?
    ensures var fields := ScopeFields(s);
            && DistinctNames(fields)
            && (set i | 0 <= i < |fields| :: fields[i].name)
                == {"kind", "project_id", "run_id", "provider_id", "account_id", "destination"}
  {
    hide Record, Texts, DestinationFields;
    var fields := ScopeFields(s);
    assert fields[0].name == "kind" && fields[1].name == "project_id" && fields[2].name == "run_id";
    assert fields[3].name == "provider_id" && fields[4].name == "account_id" && fields[5].name == "destination";
  }

  lemma ProviderIsRead(s: CapabilityScope)
    requires s.Provider?
    ensures StringAt(Record(ScopeFields(s)), "kind") == Some("provider")
    ensures ReadProvider(Record(ScopeFields(s))) == Some(s)
  {
    hide Record, MapOf, Texts, DestinationFields, StringsAt, ReadDestination, DistinctNames;
    var fields, v := ScopeFields(s), Record(ScopeFields(s));
    ProviderNames(s);
    MembersOfRecord(fields);
    DestinationIsRead(s.destination);
    assert fields[0].name == "kind" && fields[1].name == "project_id" && fields[2].name == "run_id";
    assert fields[3].name == "provider_id" && fields[4].name == "account_id" && fields[5].name == "destination";
  }

  lemma CredentialNames(s: CapabilityScope)
    requires s.Credential?
    ensures var fields := ScopeFields(s);
            && DistinctNames(fields)
            && (set i | 0 <= i < |fields| :: fields[i].name)
                == {"kind", "project_id", "run_id", "provider_id", "account_id", "credential_ref", "destination"}
  {
    hide Record, Texts, DestinationFields;
    var fields := ScopeFields(s);
    assert fields[0].name == "kind" && fields[1].name == "project_id" && fields[2].name == "run_id";
    assert fields[3].name == "provider_id" && fields[4].name == "account_id";
    assert fields[5].name == "credential_ref" && fields[6].name == "destination";
  }

  lemma CredentialIsRead(s: CapabilityScope)
    requires s.Credential?
    ensures StringAt(Record(ScopeFields(s)), "kind") == Some("credential")
    ensures ReadCredential(Record(ScopeFields(s))) == Some(s)
  {
    hide Record, MapOf, Texts, DestinationFields, StringsAt, ReadDestination, DistinctNames;
    var fields, v := ScopeFields(s), Record(ScopeFields(s));
    CredentialNames(s);
    MembersOfRecord(fields);
    DestinationIsRead(s.destination);
    assert fields[0].name == "kind" && fields[1].name == "project_id" && fields[2].name == "run_id";
    assert fields[3].name == "provider_id" && fields[4].name == "account_id";
    assert fields[5].name == "credential_ref" && fields[6].name == "destination";
  }

  lemma IntegrationNames(s: CapabilityScope)
    requires s.Integration?
    ensures var fields := ScopeFields(s);
            && DistinctNames(fields)
            && (set i | 0 <= i < |fields| :: fields[i].name)
                == {"kind", "project_id", "run_id", "worktree_id", "target_ref"}
  {
    hide Record, Texts, DestinationFields;
    var fields := ScopeFields(s);
    assert fields[0].name == "kind" && fields[1].name == "project_id" && fields[2].name == "run_id";
    assert fields[3].name == "worktree_id" && fields[4].name == "target_ref";
  }

  lemma IntegrationIsRead(s: CapabilityScope)
    requires s.Integration?
    ensures StringAt(Record(ScopeFields(s)), "kind") == Some("integration")
    ensures ReadIntegration(Record(ScopeFields(s))) == Some(s)
  {
    hide Record, MapOf, Texts, DestinationFields, StringsAt, ReadDestination, DistinctNames;
    var fields, v := ScopeFields(s), Record(ScopeFields(s));
    IntegrationNames(s);
    MembersOfRecord(fields);
    assert fields[0].name == "kind" && fields[1].name == "project_id" && fields[2].name == "run_id";
    assert fields[3].name == "worktree_id" && fields[4].name == "target_ref";
  }

  lemma ScopeNamesDiffer(s: CapabilityScope)
    ensures DistinctNames(ScopeFields(s))
  {
    hide ScopeFields, DistinctNames;
    match s
    case ProjectPaths(_, _, _, _, _) => ProjectPathsNames(s);
    case BrokerCommand(_, _, _, _) => BrokerCommandNames(s);
    case Provider(_, _, _, _, _) => ProviderNames(s);
    case Credential(_, _, _, _, _, _) => CredentialNames(s);
    case Integration(_, _, _, _) => IntegrationNames(s);
  }

  lemma ScopeFieldsAreFree(s: CapabilityScope)
    ensures forall i :: 0 <= i < |ScopeFields(s)| ==> FloatFree(ScopeFields(s)[i].value)
  {
    hide Record, Texts, DestinationFields;
    if s.ProjectPaths? {
      TextsAreFloatFree(s.paths);
    } else if s.Provider? || s.Credential? {
      DestinationIsRead(s.destination);
    }
  }

  lemma ScopeIsFloatFree(s: CapabilityScope)
    ensures FloatFree(Record(ScopeFields(s)))
  {
    hide Record, DistinctNames, ScopeFields;
    ScopeNamesDiffer(s);
    ScopeFieldsAreFree(s);
    RecordIsFloatFree(ScopeFields(s));
  }

  /** The lengths of the kinds of capabilities tell them apart. */
  lemma ScopeKindsDiffer()
    ensures |"project_paths"| == 13 && |"broker_command"| == 14 && |"provider"| == 8 && |"credential"| == 10
            && |"integration"| == 11
  {
  }

  lemma ScopeIsRead(s: CapabilityScope)
    ensures FloatFree(Record(ScopeFields(s))) && ReadScope(Record(ScopeFields(s))) == Some(s)
  {
    hide Record, ScopeFields, ReadProjectPaths, ReadBrokerCommand, ReadProvider, ReadCredential, ReadIntegration;
    hide FloatFree;
    ScopeIsFloatFree(s);
    ScopeKindsDiffer();
    match s
    case ProjectPaths(_, _, _, _, _) => ProjectPathsIsRead(s);
    case BrokerCommand(_, _, _, _) => BrokerCommandIsRead(s);
    case Provider(_, _, _, _, _) => ProviderIsRead(s);
    case Credential(_, _, _, _, _, _) => CredentialIsRead(s);
    case Integration(_, _, _, _) => IntegrationIsRead(s);
  }

  // ------------------------------------------------------------ operations

  lemma ReadFilesNames(o: ActionOperation)
    requires o.ReadFiles?
    ensures var fields := OperationFields(o);
            && DistinctNames(fields)
            && (set i | 0 <= i < |fields| :: fields[i].name)
                == {"kind", "worktree_id", "paths"}
  {
    hide Record, Texts, DestinationFields;
    var fields := OperationFields(o);
    assert fields[0].name == "kind" && fields[1].name == "worktree_id" && fields[2].name == "paths";
  }

  lemma ReadFilesIsRead(o: ActionOperation)
    requires o.ReadFiles?
    ensures StringAt(Record(OperationFields(o)), "kind") == Some("read_files")
    ensures ReadReadFiles(Record(OperationFields(o))) == Some(o)
  {
    hide Record, MapOf, Texts, DestinationFields, StringsAt, ReadDestination, DistinctNames;
    var fields, v := OperationFields(o), Record(OperationFields(o));
    ReadFilesNames(o);
    MembersOfRecord(fields);
    StringsAreRead(v, "paths", o.paths);
    assert fields[0].name == "kind" && fields[1].name == "worktree_id" && fields[2].name == "paths";
  }

  lemma ApplyPatchNames(o: ActionOperation)
    requires o.ApplyPatch?
    ensures var fields := OperationFields(o);
            && DistinctNames(fields)
            && (set i | 0 <= i < |fields| :: fields[i].name)
                == {"kind", "worktree_id", "patch_digest", "patch_bytes", "affected_paths"}
  {
    hide Record, Texts, DestinationFields;
    var fields := OperationFields(o);
    assert fields[0].name == "kind" && fields[1].name == "worktree_id" && fields[2].name == "patch_digest";
    assert fields[3].name == "patch_bytes" && fields[4].name == "affected_paths";
  }

  lemma ApplyPatchIsRead(o: ActionOperation)
    requires o.ApplyPatch?
    ensures StringAt(Record(OperationFields(o)), "kind") == Some("apply_patch")
    ensures ReadApplyPatch(Record(OperationFields(o))) == Some(o)
  {
    hide Record, MapOf, Texts, DestinationFields, StringsAt, ReadDestination, DistinctNames;
    var fields, v := OperationFields(o), Record(OperationFields(o));
    ApplyPatchNames(o);
    MembersOfRecord(fields);
    StringsAreRead(v, "affected_paths", o.affectedPaths);
    assert fields[0].name == "kind" && fields[1].name == "worktree_id" && fields[2].name == "patch_digest";
    assert fields[3].name == "patch_bytes" && fields[4].name == "affected_paths";
  }

  lemma RunBrokerCommandNames(o: ActionOperation)
    requires o.RunBrokerCommand?
    ensures var fields := OperationFields(o);
            && DistinctNames(fields)
            && (set i | 0 <= i < |fields| :: fields[i].name)
                == {"kind", "worktree_id", "catalog_entry_id", "catalog_entry_digest",
                    "executable_digest", "cwd", "argv"}
  {
    hide Record, Texts, DestinationFields;
    var fields := OperationFields(o);
    assert fields[0].name == "kind" && fields[1].name == "worktree_id" && fields[2].name == "catalog_entry_id";
    assert fields[3].name == "catalog_entry_digest" && fields[4].name == "executable_digest";
    assert fields[5].name == "cwd" && fields[6].name == "argv";
  }

  lemma RunBrokerCommandIsRead(o: ActionOperation)
    requires o.RunBrokerCommand?
    ensures StringAt(Record(OperationFields(o)), "kind") == Some("run_broker_command")
    ensures ReadRunBrokerCommand(Record(OperationFields(o))) == Some(o)
  {
    hide Record, MapOf, Texts, DestinationFields, StringsAt, ReadDestination, DistinctNames;
    var fields, v := OperationFields(o), Record(OperationFields(o));
    RunBrokerCommandNames(o);
    MembersOfRecord(fields);
    StringsAreRead(v, "argv", o.argv);
    assert fields[0].name == "kind" && fields[1].name == "worktree_id" && fields[2].name == "catalog_entry_id";
    assert fields[3].name == "catalog_entry_digest" && fields[4].name == "executable_digest";
    assert fields[5].name == "cwd" && fields[6].name == "argv";
  }

  lemma SubmitProviderRequestNames(o: ActionOperation)
    requires o.SubmitProviderRequest?
    ensures var fields := OperationFields(o);
            && DistinctNames(fields)
            && (set i | 0 <= i < |fields| :: fields[i].name)
                == {"kind", "provider_id", "account_id", "destination", "request_digest",
                    "request_bytes", "data_classes"}
  {
    hide Record, Texts, DestinationFields;
    var fields := OperationFields(o);
    assert fields[0].name == "kind" && fields[1].name == "provider_id" && fields[2].name == "account_id";
    assert fields[3].name == "destination" && fields[4].name == "request_digest";
    assert fields[5].name == "request_bytes" && fields[6].name == "data_classes";
  }

  lemma SubmitProviderRequestIsRead(o: ActionOperation)
    requires o.SubmitProviderRequest?
    ensures StringAt(Record(OperationFields(o)), "kind") == Some("submit_provider_request")
    ensures ReadSubmitProviderRequest(Record(OperationFields(o))) == Some(o)
  {
    hide Record, MapOf, Texts, DestinationFields, StringsAt, ReadDestination, DistinctNames;
    var fields, v := OperationFields(o), Record(OperationFields(o));
    SubmitProviderRequestNames(o);
    MembersOfRecord(fields);
    DestinationIsRead(o.destination);
    StringsAreRead(v, "data_classes", o.dataClasses);
    assert fields[0].name == "kind" && fields[1].name == "provider_id" && fields[2].name == "account_id";
    assert fields[3].name == "destination" && fields[4].name == "request_digest";
    assert fields[5].name == "request_bytes" && fields[6].name == "data_classes";
  }

  lemma UseCredentialNames(o: ActionOperation)
    requires o.UseCredential?
    ensures var fields := OperationFields(o);
            && DistinctNames(fields)
            && (set i | 0 <= i < |fields| :: fields[i].name)
                == {"kind", "provider_id", "account_id", "credential_ref", "destination"}
  {
    hide Record, Texts, DestinationFields;
    var fields := OperationFields(o);
    assert fields[0].name == "kind" && fields[1].name == "provider_id" && fields[2].name == "account_id";
    assert fields[3].name == "credential_ref" && fields[4].name == "destination";
  }

  lemma UseCredentialIsRead(o: ActionOperation)
    requires o.UseCredential?
    ensures StringAt(Record(OperationFields(o)), "kind") == Some("use_credential")
    ensures ReadUseCredential(Record(OperationFields(o))) == Some(o)
  {
    hide Record, MapOf, Texts, DestinationFields, StringsAt, ReadDestination, DistinctNames;
    var fields, v := OperationFields(o), Record(OperationFields(o));
    UseCredentialNames(o);
    MembersOfRecord(fields);
    DestinationIsRead(o.destination);
    assert fields[0].name == "kind" && fields[1].name == "provider_id" && fields[2].name == "account_id";
    assert fields[3].name == "credential_ref" && fields[4].name == "destination";
  }

  lemma IntegrateWorktreeNames(o: ActionOperation)
    requires o.IntegrateWorktree?
    ensures var fields := OperationFields(o);
            && DistinctNames(fields)
            && (set i | 0 <= i < |fields| :: fields[i].name)
                == {"kind", "worktree_id", "source_ref", "source_oid", "target_ref",
                    "expected_target_oid", "diff_digest"}
  {
    hide Record, Texts, DestinationFields;
    var fields := OperationFields(o);
    assert fields[0].name == "kind" && fields[1].name == "worktree_id" && fields[2].name == "source_ref";
    assert fields[3].name == "source_oid" && fields[4].name == "target_ref";
    assert fields[5].name == "expected_target_oid" && fields[6].name == "diff_digest";
  }

  lemma IntegrateWorktreeIsRead(o: ActionOperation)
    requires o.IntegrateWorktree?
    ensures StringAt(Record(OperationFields(o)), "kind") == Some("integrate_worktree")
    ensures ReadIntegrateWorktree(Record(OperationFields(o))) == Some(o)
  {
    hide Record, MapOf, Texts, DestinationFields, StringsAt, ReadDestination, DistinctNames;
    var fields, v := OperationFields(o), Record(OperationFields(o));
    IntegrateWorktreeNames(o);
    MembersOfRecord(fields);
    assert fields[0].name == "kind" && fields[1].name == "worktree_id" && fields[2].name == "source_ref";
    assert fields[3].name == "source_oid" && fields[4].name == "target_ref";
    assert fields[5].name == "expected_target_oid" && fields[6].name == "diff_digest";
  }

  lemma OperationNamesDiffer(o: ActionOperation)
    ensures DistinctNames(OperationFields(o))
  {
    hide OperationFields, DistinctNames;
    match o
    case ReadFiles(_, _) => ReadFilesNames(o);
    case ApplyPatch(_, _, _, _) => ApplyPatchNames(o);
    case RunBrokerCommand(_, _, _, _, _, _) => RunBrokerCommandNames(o);
    case SubmitProviderRequest(_, _, _, _, _, _) => SubmitProviderRequestNames(o);
    case UseCredential(_, _, _, _) => UseCredentialNames(o);
    case IntegrateWorktree(_, _, _, _, _, _) => IntegrateWorktreeNames(o);
  }

  lemma OperationFieldsAreFree(o: ActionOperation)
    ensures forall i :: 0 <= i < |OperationFields(o)| ==> FloatFree(OperationFields(o)[i].value)
  {
    hide Record, Texts, DestinationFields;
    match o
    case ReadFiles(_, paths) => TextsAreFloatFree(paths);
    case ApplyPatch(_, _, _, paths) => TextsAreFloatFree(paths);
    case RunBrokerCommand(_, _, _, _, _, argv) => TextsAreFloatFree(argv);
    case SubmitProviderRequest(_, _, destination, _, _, classes) =>
      TextsAreFloatFree(classes);
      DestinationIsRead(destination);
    case UseCredential(_, _, _, destination) => DestinationIsRead(destination);
    case IntegrateWorktree(_, _, _, _, _, _) =>
  }

  lemma OperationIsFloatFree(o: ActionOperation)
    ensures FloatFree(Record(OperationFields(o)))
  {
    hide Record, DistinctNames, OperationFields;
    OperationNamesDiffer(o);
    OperationFieldsAreFree(o);
    RecordIsFloatFree(OperationFields(o));
  }

  lemma OperationKindsDiffer()
    ensures |"read_files"| == 10 && |"apply_patch"| == 11 && |"run_broker_command"| == 18
            && |"submit_provider_request"| == 23 && |"use_credential"| == 14 && |"integrate_worktree"| == 18
    ensures "run_broker_command" != "integrate_worktree"
  {
    assert "run_broker_command"[0] != "integrate_worktree"[0];
  }

  lemma OperationIsRead(o: ActionOperation)
    ensures FloatFree(Record(OperationFields(o))) && ReadOperation(Record(OperationFields(o))) == Some(o)
  {
    hide Record, OperationFields, ReadReadFiles, ReadApplyPatch, ReadRunBrokerCommand, ReadSubmitProviderRequest;
    hide ReadUseCredential, ReadIntegrateWorktree, FloatFree;
    OperationIsFloatFree(o);
    OperationKindsDiffer();
    match o
    case ReadFiles(_, _) => ReadFilesIsRead(o);
    case ApplyPatch(_, _, _, _) => ApplyPatchIsRead(o);
    case RunBrokerCommand(_, _, _, _, _, _) => RunBrokerCommandIsRead(o);
    case SubmitProviderRequest(_, _, _, _, _, _) => SubmitProviderRequestIsRead(o);
    case UseCredential(_, _, _, _) => UseCredentialIsRead(o);
    case IntegrateWorktree(_, _, _, _, _, _) => IntegrateWorktreeIsRead(o);
  }

  // ---------------------------------------------------------------- actions

  function ProvenanceValue(ps: seq<Provenance>): Value {
    Arr(seq(|ps|, i requires 0 <= i < |ps| => Record(ProvenanceFields(ps[i]))))
  }

  lemma ProvenancesAreRead(ps: seq<Provenance>)
    ensures ReadProvenances(ProvenanceValue(ps)) == Some(ps) && FloatFree(ProvenanceValue(ps))
  {
    hide Record, ProvenanceFields, ReadProvenance;
    var items := ProvenanceValue(ps).items;
    forall i | 0 <= i < |items| ensures ReadProvenance(items[i]) == Some(ps[i]) && FloatFree(items[i]) {
      ProvenanceIsRead(ps[i]);
    }
    assert ReadProvenances(ProvenanceValue(ps)).value == ps;
  }

  lemma ActionNames(a: ActionProposal)
    ensures var fields := ActionFields(a);
            && DistinctNames(fields) && fields[6].value == ProvenanceValue(a.provenance)
            && (set i | 0 <= i < |fields| :: fields[i].name)
               == {"schema_version", "action_id", "run_id", "project_id", "requested_capability", "operation",
                   "provenance", "created_at_unix_ms", "expires_at_unix_ms"}
  {
    hide Record, ScopeFields, OperationFields, ProvenanceFields;
    var fields := ActionFields(a);
    assert fields[0].name == "schema_version" && fields[1].name == "action_id" && fields[2].name == "run_id";
    assert fields[3].name == "project_id" && fields[4].name == "requested_capability";
    assert fields[5].name == "operation" && fields[6].name == "provenance";
    assert fields[7].name == "created_at_unix_ms" && fields[8].name == "expires_at_unix_ms";
    assert (set i | 0 <= i < |fields| :: fields[i].name)
        == {"schema_version", "action_id", "run_id", "project_id", "requested_capability", "operation",
            "provenance", "created_at_unix_ms", "expires_at_unix_ms"};
  }

  lemma ActionIsFloatFree(a: ActionProposal)
    ensures FloatFree(Record(ActionFields(a)))
  {
    hide Record, DistinctNames, ScopeFields, OperationFields, ProvenanceFields, ReadScope, ReadOperation,
         ReadProvenances;
    ActionNames(a);
    ScopeIsRead(a.requestedCapability);
    OperationIsRead(a.operation);
    ProvenancesAreRead(a.provenance);
    hide ProvenanceValue;
    RecordIsFloatFree(ActionFields(a));
  }

  /** Reading the serialized form of an action gives back the action. */
  lemma ActionIsRead(a: ActionProposal)
    ensures ReadAction(Record(ActionFields(a))) == Some(a)
  {
    hide Record, DistinctNames, ScopeFields, OperationFields, ProvenanceFields, ReadScope, ReadOperation,
         ReadProvenances, ProvenanceValue, FloatFree;
    var fields := ActionFields(a);
    ActionNames(a);
    MembersOfRecord(fields);
    ScopeIsRead(a.requestedCapability);
    OperationIsRead(a.operation);
    ProvenancesAreRead(a.provenance);
    assert fields[0].name == "schema_version" && fields[1].name == "action_id" && fields[2].name == "run_id";
    assert fields[3].name == "project_id" && fields[4].name == "requested_capability" && fields[5].name == "operation";
    assert fields[6].name == "provenance" && fields[7].name == "created_at_unix_ms";
    assert fields[8].name == "expires_at_unix_ms";
  }

  /** The canonical text of an action is JSON text from which the action can be read back. */
  lemma ActionTextIsRead(a: ActionProposal)
    ensures var v := Record(ActionFields(a)); IsRead(v, "") && ReadAction(v) == Some(a)
  {
    hide Record, ActionFields, ReadAction, IsRead;
    ActionIsFloatFree(a);
    ActionIsRead(a);
    TextIsRead(Record(ActionFields(a)), "");
  }

  /** Actions with the same canonical text are the same action. */
  lemma ActionTextIsInjective(a: ActionProposal, b: ActionProposal)
    requires Text(Record(ActionFields(a))) == Text(Record(ActionFields(b)))
    ensures a == b
  {
    hide Record, ActionFields, ReadAction, Text, FloatFree;
    ActionIsFloatFree(a);
    ActionIsFloatFree(b);
    ActionIsRead(a);
    ActionIsRead(b);
    TextIsInjective(Record(ActionFields(a)), Record(ActionFields(b)));
  }
}
