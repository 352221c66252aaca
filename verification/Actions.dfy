/** Proposed actions and the capabilities that cover them: shape, matching and serialized form. */
module Actions {
  import opened Canonical
  import opened Characters
  import opened Orders
  import opened Records

  type U16 = n: nat | n <= 0xFFFF
  type U64 = n: nat | n <= 0xFFFF_FFFF_FFFF_FFFF

  const ACTION_SCHEMA_VERSION: nat := 1
  const MAX_ACTION_TTL_MS: nat := 300_000
  const MAX_CANONICAL_ACTION_BYTES: nat := 64 * 1024
  const MAX_SAFE_JSON_INTEGER: nat := 9_007_199_254_740_991
  const MAX_ID_BYTES: nat := 128
  const MAX_STRING_BYTES: nat := 4 * 1024
  const MAX_PATHS: nat := 256
  const MAX_ARGV: nat := 128
  const MAX_PROVENANCE: nat := 32
  const MAX_DATA_CLASSES: nat := 32
  const MAX_PATCH_BYTES: nat := 16 * 1024 * 1024
  const MAX_PROVIDER_REQUEST_BYTES: nat := 16 * 1024 * 1024

  datatype Provenance = Provenance(sourceKind: string, sourceId: string, contentDigest: string)

  datatype Destination = Destination(scheme: string, host: string, port: U16, path: string)

  datatype PathCapability = Read | ApplyPatches

  datatype CapabilityKind =
    ProjectRead | ProjectApplyPatch | BrokerCommandKind | ProviderSubmit | CredentialUse | WorktreeIntegrate

  datatype CapabilityScope =
    | ProjectPaths(capability: PathCapability, projectId: string, runId: string, worktreeId: string, paths: seq<string>)
    | BrokerCommand(projectId: string, runId: string, worktreeId: string, catalogEntryId: string)
    | Provider(projectId: string, runId: string, providerId: string, accountId: string, destination: Destination)
    | Credential(projectId: string, runId: string, providerId: string, accountId: string, credentialRef: string,
                 destination: Destination)
    | Integration(projectId: string, runId: string, worktreeId: string, targetRef: string)

  datatype ActionOperation =
    | ReadFiles(worktreeId: string, paths: seq<string>)
    | ApplyPatch(worktreeId: string, patchDigest: string, patchBytes: U64, affectedPaths: seq<string>)
    | RunBrokerCommand(worktreeId: string, catalogEntryId: string, catalogEntryDigest: string, executableDigest: string,
                       cwd: string, argv: seq<string>)
    | SubmitProviderRequest(providerId: string, accountId: string, destination: Destination, requestDigest: string,
                            requestBytes: U64, dataClasses: seq<string>)
    | UseCredential(providerId: string, accountId: string, credentialRef: string, destination: Destination)
    | IntegrateWorktree(worktreeId: string, sourceRef: string, sourceOid: string, targetRef: string,
                        expectedTargetOid: string, diffDigest: string)

  datatype ActionProposal = ActionProposal(
    schemaVersion: U16, actionId: string, runId: string, projectId: string, requestedCapability: CapabilityScope,
    operation: ActionOperation, provenance: seq<Provenance>, createdAt: U64, expiresAt: U64)

  // ------------------------------------------------------- single values

  /** Length in bytes of the UTF-8 form. */
  function ByteLength(s: string): nat {
    if s == "" then 0
    else
      var c := s[|s|-1];
      ByteLength(s[..|s|-1]) + if c < '\U{80}' then 1 else if c < '\U{800}' then 2 else if c < '\U{10000}' then 3 else 4
  }

  /** Ids and approval identities: ASCII letters and digits, then also . _ : and hyphen. */
  predicate ValidId(v: string) {
    && 1 <= |v| <= MAX_ID_BYTES && Alphanumeric(v[0])
    && (forall i :: 1 <= i < |v| ==> Alphanumeric(v[i]) || v[i] in "._:-")
  }

  predicate BoundedString(v: string) {
    v != "" && ByteLength(v) <= MAX_STRING_BYTES && '\0' !in v
  }

  predicate HasDoubleDot(s: string) {
    exists i :: 0 <= i < |s| - 1 && s[i] == '.' && s[i+1] == '.'
  }

  predicate ValidRef(v: string) {
    BoundedString(v) && v[0] != '-' && !HasDoubleDot(v) && forall i :: 0 <= i < |v| ==> !AsciiControl(v[i])
  }

  predicate ValidOid(v: string) {
    (|v| == 40 || |v| == 64) && forall i :: 0 <= i < |v| ==> LowerHex(v[i])
  }

  predicate ValidCount(n: nat, max: nat) {
    0 < n <= max && n <= MAX_SAFE_JSON_INTEGER
  }

  /** The parts of a string between occurrences of a separator; one part when there is none. */
  function Split(s: string, c: char): (parts: seq<string>)
    ensures parts != []
  {
    if s == "" then [""]
    else
      var rest := Split(s[1..], c);
      if s[0] == c then [""] + rest else [[s[0]] + rest[0]] + rest[1..]
  }

  function Join(parts: seq<string>, c: char): string {
    if |parts| == 0 then "" else if |parts| == 1 then parts[0] else parts[0] + [c] + Join(parts[1..], c)
  }

  /** The parts hold no separator, and joining them gives back the string. */
  lemma {:induction false} SplitJoins(s: string, c: char)
    ensures Join(Split(s, c), c) == s
    ensures forall i :: 0 <= i < |Split(s, c)| ==> c !in Split(s, c)[i]
  {
    if s == "" {
    } else {
      var rest := Split(s[1..], c);
      SplitJoins(s[1..], c);
      var parts := Split(s, c);
      assert s == [s[0]] + s[1..];
      if s[0] == c {
        assert parts[1..] == rest;
      } else if |rest| > 1 {
        assert parts[1..] == rest[1..];
        assert Join(parts, c) == [s[0]] + (rest[0] + [c] + Join(rest[1..], c));
      }
    }
  }

  predicate ValidPath(v: string) {
    && BoundedString(v) && v[0] != '/' && v[|v|-1] != '/' && '\\' !in v
    && (forall i :: 0 <= i < |v| ==> !AsciiControl(v[i]))
    && (var parts := Split(v, '/');
        forall i :: 0 <= i < |parts| ==> parts[i] != "" && parts[i] != "." && parts[i] != ".." && parts[i] != ".git")
  }

  /** Strict order of strings by bytes, which is the order by characters. */
  predicate Before(a: string, b: string) {
    a != b && StringLeq(a, b)
  }

  predicate StrictlyAscending(values: seq<string>) {
    forall i :: 1 <= i < |values| ==> Before(values[i-1], values[i])
  }

  predicate ValidPaths(paths: seq<string>) {
    1 <= |paths| <= MAX_PATHS && (forall i :: 0 <= i < |paths| ==> ValidPath(paths[i])) && StrictlyAscending(paths)
  }

  predicate ValidSortedStrings(values: seq<string>, max: nat) {
    1 <= |values| <= max && (forall i :: 0 <= i < |values| ==> BoundedString(values[i])) && StrictlyAscending(values)
  }

  lemma {:induction false} AscendingFromFirst(values: seq<string>, i: nat, j: nat)
    requires StrictlyAscending(values) && i < j < |values|
    ensures Before(values[i], values[j])
    decreases j
  {
    if i == j - 1 {
    } else {
      AscendingFromFirst(values, i, j - 1);
      StringLeqTransitive(values[i], values[j-1], values[j]);
      if values[i] == values[j] {
        StringLeqAntisymmetric(values[j-1], values[j]);
      }
    }
  }

  /** Checks paths one by one against the previous one and against all seen before. In
      ascending order nothing is ever seen twice, so the second check never decides. */
  method ValidatePaths(paths: seq<string>) returns (ok: bool)
    ensures ok == ValidPaths(paths)
  {
    if paths == [] || |paths| > MAX_PATHS {
      return false;
    }
    var seen: set<string> := {};
    var previous := "";
    for i := 0 to |paths|
      invariant i > 0 ==> previous == paths[i-1]
      invariant forall j :: 0 <= j < i ==> ValidPath(paths[j])
      invariant StrictlyAscending(paths[..i])
      invariant seen == set j | 0 <= j < i :: paths[j]
    {
      hide ValidPath, StringLeq;
      if !ValidPath(paths[i]) {
        return false;
      }
      if i > 0 && !Before(previous, paths[i]) {
        assert !Before(paths[i-1], paths[i]);
        return false;
      }
      assert StrictlyAscending(paths[..i+1]);
      if paths[i] in seen {
        var j :| 0 <= j < i && paths[j] == paths[i];
        AscendingFromFirst(paths[..i+1], j, i);
        return false;
      }
      seen := seen + {paths[i]};
      previous := paths[i];
    }
    assert paths[..|paths|] == paths;
    return true;
  }

  method ValidateSortedStrings(values: seq<string>, max: nat) returns (ok: bool)
    ensures ok == ValidSortedStrings(values, max)
  {
    if values == [] || |values| > max {
      return false;
    }
    var previous := "";
    for i := 0 to |values|
      invariant i > 0 ==> previous == values[i-1]
      invariant forall j :: 0 <= j < i ==> BoundedString(values[j])
      invariant StrictlyAscending(values[..i])
    {
      hide BoundedString, StringLeq;
      if !BoundedString(values[i]) || (i > 0 && !Before(previous, values[i])) {
        assert !BoundedString(values[i]) || !Before(values[i-1], values[i]);
        return false;
      }
      previous := values[i];
    }
    assert values[..|values|] == values;
    return true;
  }

  // --------------------------------------------------------- destinations

  predicate HostLabel(v: string) {
    && 1 <= |v| <= 63 && v[0] != '-' && v[|v|-1] != '-'
    && (forall i :: 0 <= i < |v| ==> 'a' <= v[i] <= 'z' || '0' <= v[i] <= '9' || v[i] == '-')
  }

  /** A decimal number below 256 without leading zeros. */
  predicate Octet(v: string) {
    && 1 <= |v| <= 3 && (forall i :: 0 <= i < |v| ==> IsDigit(v[i]))
    && (|v| > 1 ==> v[0] != '0')
    && (|v| == 3 ==> v[0] < '2' || (v[0] == '2' && (v[1] < '5' || (v[1] == '5' && v[2] <= '5'))))
  }

  /** The only form of an IP address whose labels are host labels. */
  predicate Ipv4(labels: seq<string>) {
    |labels| == 4 && forall i :: 0 <= i < 4 ==> Octet(labels[i])
  }

  predicate ValidDestination(d: Destination) {
    && d.scheme == "https"
    && |d.host| <= 253 && '.' in d.host
    && (var labels := Split(d.host, '.'); (forall i :: 0 <= i < |labels| ==> HostLabel(labels[i])) && !Ipv4(labels))
    && d.port != 0
    && 1 <= |d.path| <= MAX_STRING_BYTES && d.path[0] == '/'
    && (forall i :: 0 <= i < |d.path| ==> ' ' <= d.path[i] <= '~' && d.path[i] != '?' && d.path[i] != '#')
  }

  // ---------------------------------------------------------------- shape

  predicate ValidProvenance(ps: seq<Provenance>) {
    && 1 <= |ps| <= MAX_PROVENANCE
    && (forall i :: 0 <= i < |ps| ==>
          ValidId(ps[i].sourceKind) && ValidId(ps[i].sourceId) && Sha256Text(ps[i].contentDigest))
  }

  predicate ValidScope(s: CapabilityScope) {
    && ValidId(s.projectId) && ValidId(s.runId)
    && match s
       case ProjectPaths(_, _, _, worktree, paths) => ValidId(worktree) && ValidPaths(paths)
       case BrokerCommand(_, _, worktree, entry) => ValidId(worktree) && ValidId(entry)
       case Provider(_, _, provider, account, destination) =>
         ValidId(provider) && ValidId(account) && ValidDestination(destination)
       case Credential(_, _, provider, account, ref, destination) =>
         ValidId(provider) && ValidId(account) && ValidId(ref) && ValidDestination(destination)
       case Integration(_, _, worktree, target) => ValidId(worktree) && ValidRef(target)
  }

  predicate ValidOperation(o: ActionOperation) {
    match o
    case ReadFiles(worktree, paths) => ValidId(worktree) && ValidPaths(paths)
    case ApplyPatch(worktree, digest, bytes, paths) =>
      ValidId(worktree) && Sha256Text(digest) && ValidCount(bytes, MAX_PATCH_BYTES) && ValidPaths(paths)
    case RunBrokerCommand(worktree, entry, entryDigest, executable, cwd, argv) =>
      && ValidId(worktree) && ValidId(entry) && Sha256Text(entryDigest) && Sha256Text(executable) && ValidPath(cwd)
      && |argv| <= MAX_ARGV && (forall i :: 0 <= i < |argv| ==> BoundedString(argv[i]))
    case SubmitProviderRequest(provider, account, destination, digest, bytes, classes) =>
      && ValidId(provider) && ValidId(account) && ValidDestination(destination) && Sha256Text(digest)
      && ValidCount(bytes, MAX_PROVIDER_REQUEST_BYTES) && ValidSortedStrings(classes, MAX_DATA_CLASSES)
    case UseCredential(provider, account, ref, destination) =>
      ValidId(provider) && ValidId(account) && ValidId(ref) && ValidDestination(destination)
    case IntegrateWorktree(worktree, sourceRef, sourceOid, targetRef, targetOid, digest) =>
      && ValidId(worktree) && ValidRef(sourceRef) && ValidOid(sourceOid) && ValidRef(targetRef) && ValidOid(targetOid)
      && Sha256Text(digest)
  }

  predicate ValidLifetime(a: ActionProposal) {
    a.createdAt < a.expiresAt <= MAX_SAFE_JSON_INTEGER && a.expiresAt - a.createdAt <= MAX_ACTION_TTL_MS
  }

  predicate ValidShape(a: ActionProposal) {
    && a.schemaVersion == ACTION_SCHEMA_VERSION
    && ValidId(a.actionId) && ValidId(a.runId) && ValidId(a.projectId)
    && ValidLifetime(a) && ValidProvenance(a.provenance)
    && ValidScope(a.requestedCapability) && ValidOperation(a.operation)
    && Matches(a.requestedCapability, a)
  }

  function KindOf(s: CapabilityScope): CapabilityKind {
    match s
    case ProjectPaths(Read, _, _, _, _) => ProjectRead
    case ProjectPaths(ApplyPatches, _, _, _, _) => ProjectApplyPatch
    case BrokerCommand(_, _, _, _) => BrokerCommandKind
    case Provider(_, _, _, _, _) => ProviderSubmit
    case Credential(_, _, _, _, _, _) => CredentialUse
    case Integration(_, _, _, _) => WorktreeIntegrate
  }

  predicate Subset(some: seq<string>, all: seq<string>) {
    forall i :: 0 <= i < |some| ==> some[i] in all
  }

  /** A capability covers an action: same project and run, the operation's kind, and the same
      worktree, catalog entry, account, credential, destination or reference; paths are a subset. */
  predicate Matches(s: CapabilityScope, a: ActionProposal) {
    && s.projectId == a.projectId && s.runId == a.runId
    && match a.operation
       case ReadFiles(worktree, paths) =>
         s.ProjectPaths? && s.capability == Read && s.worktreeId == worktree && Subset(paths, s.paths)
       case ApplyPatch(worktree, _, _, paths) =>
         s.ProjectPaths? && s.capability == ApplyPatches && s.worktreeId == worktree && Subset(paths, s.paths)
       case RunBrokerCommand(worktree, entry, _, _, _, _) =>
         s.BrokerCommand? && s.worktreeId == worktree && s.catalogEntryId == entry
       case SubmitProviderRequest(provider, account, destination, _, _, _) =>
         s.Provider? && s.providerId == provider && s.accountId == account && s.destination == destination
       case UseCredential(provider, account, ref, destination) =>
         s.Credential? && s.providerId == provider && s.accountId == account && s.credentialRef == ref
         && s.destination == destination
       case IntegrateWorktree(worktree, _, _, target, _, _) =>
         s.Integration? && s.worktreeId == worktree && s.targetRef == target
  }

  /** The least capability that an action needs. */
  function NeededScope(a: ActionProposal): CapabilityScope {
    match a.operation
    case ReadFiles(worktree, paths) => ProjectPaths(Read, a.projectId, a.runId, worktree, paths)
    case ApplyPatch(worktree, _, _, paths) => ProjectPaths(ApplyPatches, a.projectId, a.runId, worktree, paths)
    case RunBrokerCommand(worktree, entry, _, _, _, _) => BrokerCommand(a.projectId, a.runId, worktree, entry)
    case SubmitProviderRequest(provider, account, destination, _, _, _) =>
      Provider(a.projectId, a.runId, provider, account, destination)
    case UseCredential(provider, account, ref, destination) =>
      Credential(a.projectId, a.runId, provider, account, ref, destination)
    case IntegrateWorktree(worktree, _, _, target, _, _) => Integration(a.projectId, a.runId, worktree, target)
  }

  /** One capability includes another: they are equal but for a larger set of paths. */
  predicate Includes(s: CapabilityScope, t: CapabilityScope) {
    if s.ProjectPaths? && t.ProjectPaths? then s.(paths := t.paths) == t && Subset(t.paths, s.paths) else s == t
  }

  /** A capability covers an action exactly when it includes the least one the action needs, so
      widening a capability never takes an action away. */
  lemma MatchingIsInclusion(s: CapabilityScope, wider: CapabilityScope, a: ActionProposal)
    ensures Matches(s, a) <==> Includes(s, NeededScope(a))
    ensures Includes(wider, s) && Matches(s, a) ==> Matches(wider, a)
    ensures Matches(s, a) ==> KindOf(s) == KindOf(NeededScope(a))
  {
    if Includes(wider, s) && Matches(s, a) && s.ProjectPaths? && (a.operation.ReadFiles? || a.operation.ApplyPatch?) {
      var paths := NeededScope(a).paths;
      assert forall i :: 0 <= i < |paths| ==> paths[i] in s.paths && paths[i] in wider.paths;
    }
  }

  predicate Authorizes(s: CapabilityScope, a: ActionProposal) {
    ValidScope(s) && Matches(s, a)
  }

  predicate RequiresDestinationState(o: ActionOperation) {
    o.SubmitProviderRequest? || o.UseCredential?
  }

  // ------------------------------------------------------ serialized form

  function Texts(values: seq<string>): Value {
    Arr(seq(|values|, i requires 0 <= i < |values| => Str(values[i])))
  }

  function DestinationFields(d: Destination): seq<Field> {
    [Field("scheme", Str(d.scheme)), Field("host", Str(d.host)), Field("port", Int(d.port)), Field("path", Str(d.path))]
  }

  function ProvenanceFields(p: Provenance): seq<Field> {
    [Field("source_kind", Str(p.sourceKind)), Field("source_id", Str(p.sourceId)),
     Field("content_digest", Str(p.contentDigest))]
  }

  function CapabilityName(c: PathCapability): string {
    match c case Read => "read" case ApplyPatches => "apply_patch"
  }

  function ScopeFields(s: CapabilityScope): seq<Field> {
    match s
    case ProjectPaths(capability, project, run, worktree, paths) =>
      [Field("kind", Str("project_paths")), Field("capability", Str(CapabilityName(capability))),
       Field("project_id", Str(project)),
       Field("run_id", Str(run)), Field("worktree_id", Str(worktree)), Field("paths", Texts(paths))]
    case BrokerCommand(project, run, worktree, entry) =>
      [Field("kind", Str("broker_command")), Field("project_id", Str(project)), Field("run_id", Str(run)),
       Field("worktree_id", Str(worktree)), Field("catalog_entry_id", Str(entry))]
    case Provider(project, run, provider, account, destination) =>
      [Field("kind", Str("provider")), Field("project_id", Str(project)), Field("run_id", Str(run)),
       Field("provider_id", Str(provider)), Field("account_id", Str(account)),
       Field("destination", Record(DestinationFields(destination)))]
    case Credential(project, run, provider, account, ref, destination) =>
      [Field("kind", Str("credential")), Field("project_id", Str(project)), Field("run_id", Str(run)),
       Field("provider_id", Str(provider)), Field("account_id", Str(account)), Field("credential_ref", Str(ref)),
       Field("destination", Record(DestinationFields(destination)))]
    case Integration(project, run, worktree, target) =>
      [Field("kind", Str("integration")), Field("project_id", Str(project)), Field("run_id", Str(run)),
       Field("worktree_id", Str(worktree)), Field("target_ref", Str(target))]
  }

  function OperationFields(o: ActionOperation): seq<Field> {
    match o
    case ReadFiles(worktree, paths) =>
      [Field("kind", Str("read_files")), Field("worktree_id", Str(worktree)), Field("paths", Texts(paths))]
    case ApplyPatch(worktree, digest, bytes, paths) =>
      [Field("kind", Str("apply_patch")), Field("worktree_id", Str(worktree)), Field("patch_digest", Str(digest)),
       Field("patch_bytes", Int(bytes)), Field("affected_paths", Texts(paths))]
    case RunBrokerCommand(worktree, entry, entryDigest, executable, cwd, argv) =>
      [Field("kind", Str("run_broker_command")), Field("worktree_id", Str(worktree)),
       Field("catalog_entry_id", Str(entry)),
       Field("catalog_entry_digest", Str(entryDigest)), Field("executable_digest", Str(executable)),
       Field("cwd", Str(cwd)), Field("argv", Texts(argv))]
    case SubmitProviderRequest(provider, account, destination, digest, bytes, classes) =>
      [Field("kind", Str("submit_provider_request")), Field("provider_id", Str(provider)),
       Field("account_id", Str(account)),
       Field("destination", Record(DestinationFields(destination))), Field("request_digest", Str(digest)),
       Field("request_bytes", Int(bytes)), Field("data_classes", Texts(classes))]
    case UseCredential(provider, account, ref, destination) =>
      [Field("kind", Str("use_credential")), Field("provider_id", Str(provider)), Field("account_id", Str(account)),
       Field("credential_ref", Str(ref)), Field("destination", Record(DestinationFields(destination)))]
    case IntegrateWorktree(worktree, sourceRef, sourceOid, targetRef, targetOid, digest) =>
      [Field("kind", Str("integrate_worktree")), Field("worktree_id", Str(worktree)),
       Field("source_ref", Str(sourceRef)),
       Field("source_oid", Str(sourceOid)), Field("target_ref", Str(targetRef)),
       Field("expected_target_oid", Str(targetOid)), Field("diff_digest", Str(digest))]
  }

  function ActionFields(a: ActionProposal): seq<Field> {
    [Field("schema_version", Int(a.schemaVersion)), Field("action_id", Str(a.actionId)), Field("run_id", Str(a.runId)),
     Field("project_id", Str(a.projectId)), Field("requested_capability", Record(ScopeFields(a.requestedCapability))),
     Field("operation", Record(OperationFields(a.operation))),
     Field("provenance",
           Arr(seq(|a.provenance|,
                   i requires 0 <= i < |a.provenance| => Record(ProvenanceFields(a.provenance[i]))))),
     Field("created_at_unix_ms", Int(a.createdAt)), Field("expires_at_unix_ms", Int(a.expiresAt))]
  }
}
