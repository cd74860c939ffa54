/** The local state of a solo deployment: six kinds of records keyed by
    workspace and environment, or by identifier, that refer to one another.
    Whatever is read or written goes through one normalisation. */
module SoloStates {
  import opened Text
  import opened Sorting
  import opened StringLists
  import opened RecordMaps

  const DEFAULT_ENVIRONMENT := "production"
  const DEFAULT_AGENT_STATE_DIR := "/var/lib/devopsellence"
  const DEFAULT_NODE_LABEL := "web"
  const PLAINTEXT := "plaintext"
  const ONE_PASSWORD := "1password"

  /** What the state depends on but does not decide: how the file system spells a
      path, lower-casing, and the parsing of timestamps. */
  datatype World = World(canon: string -> Option<string>, lower: string -> string, instant: string -> Option<int>)

  /** A path is not blank, and lower-casing leaves lower case alone. */
  ghost predicate WorldOk(w: World) {
    && (forall path :: w.canon(path).Some? ==> !Blank(w.canon(path).value))
    && w.lower(PLAINTEXT) == PLAINTEXT && w.lower(ONE_PASSWORD) == ONE_PASSWORD
  }

  // ---- records ----

  /** The workspace and environment that a record belongs to. */
  datatype Scope = Scope(root: string, key: string, environment: string)

  datatype Node = Node(host: string, user: string, port: int, agentStateDir: string, labels: seq<string>,
                       provider: string)
  datatype Attachment = Attachment(scope: Scope, nodeNames: seq<string>)
  datatype Snapshot = Snapshot(scope: Scope, revision: string, contents: string)
  datatype Release = Release(id: string, environmentID: string, revision: string, createdAt: string, snapshot: Snapshot,
                             contents: string)
  datatype Deployment = Deployment(
    id: string, environmentID: string, releaseID: string, kind: string, status: string, sequence: int, contents: string)
  datatype Secret = Secret(
    scope: Scope, service: string, name: string, store: string, value: string, reference: string, updatedAt: string)
  datatype IngressCheck = IngressCheck(
    scope: Scope, ok: bool, publicURLs: seq<string>, expectedIPs: seq<string>, checkedAt: string, contents: string)

  datatype State = State(
    nodes: map<string, Node>, attachments: map<string, Attachment>, snapshots: map<string, Snapshot>,
    releases: map<string, Release>, current: map<string, string>, deployments: map<string, Deployment>,
    secrets: map<string, Secret>, ingressChecks: map<string, IngressCheck>)

  // ---- keys ----

  function NewlineIn(s: string): (i: nat)
    ensures i <= |s| && (i < |s| ==> s[i] == '\n')
    ensures '\n' !in s[..i]
  {
    if s == "" || s[0] == '\n' then 0
    else
      var i := NewlineIn(s[1..]);
      assert s[..i + 1] == [s[0]] + s[1..][..i];
      i + 1
  }

  /** `strings.SplitN` at newlines. */
  function SplitN(s: string, n: nat): (parts: seq<string>)
    requires n > 0
    ensures parts != []
  {
    var i := NewlineIn(s);
    if n == 1 || i == |s| then [s] else [s[..i]] + SplitN(s[i + 1..], n - 1)
  }

  /** Part `i` of a key of up to `n` parts. */
  function Part(key: string, n: nat, i: nat): string
    requires n > 0
  {
    var parts := SplitN(key, n);
    if i < |parts| then Trim(parts[i]) else ""
  }

  function FirstNonEmpty(values: seq<string>): string {
    if values == [] then "" else if !Blank(values[0]) then Trim(values[0]) else FirstNonEmpty(values[1..])
  }

  function DefaultEnvironmentName(name: string): string {
    if Blank(name) then DEFAULT_ENVIRONMENT else Trim(name)
  }

  /** `CanonicalWorkspaceKey`. */
  function CanonicalKey(w: World, path: string): Option<string> {
    w.canon(Trim(path))
  }

  /** `EnvironmentStateKey`. */
  function EnvironmentStateKey(w: World, root: string, environment: string): Option<string> {
    match CanonicalKey(w, root)
    case None => None
    case Some(key) => Some(key + "\n" + DefaultEnvironmentName(environment))
  }

  function ScopeKey(s: Scope): string {
    s.key + "\n" + s.environment
  }

  /** `normalizeWorkspaceIdentity`, and the environment beside it.  `key` only
      fills in what the record leaves blank. */
  function NormalScope(w: World, key: string, keyEnvironment: string, s: Scope): Option<Scope> {
    var source := FirstNonEmpty([s.root, s.key, Part(key, 2, 0)]);
    if source == "" then None
    else
      match CanonicalKey(w, source)
      case None => None
      case Some(canonical) =>
        Some(Scope(if Blank(s.root) then canonical else Trim(s.root), canonical,
                   DefaultEnvironmentName(FirstNonEmpty([s.environment, keyEnvironment]))))
  }

  // ---- record by record ----

  function NodeLabels(labels: seq<string>): seq<string> {
    var u := Uniq(labels, |labels|);
    if u == [] then [DEFAULT_NODE_LABEL] else u
  }

  function NormalNode(name: string, node: Node): Outcome<Node> {
    var n := node.(port := if node.port == 0 then 22 else node.port,
                   agentStateDir := if Blank(node.agentStateDir) then DEFAULT_AGENT_STATE_DIR else node.agentStateDir,
                   labels := NodeLabels(node.labels));
    if Blank(name) || Blank(n.host) || Blank(n.user) || n.port <= 0 || n.port > 65535 then Refuse else Keep(name, n)
  }

  function NormalAttachment(w: World, key: string, a: Attachment): Outcome<Attachment> {
    match NormalScope(w, key, Part(key, 2, 1), a.scope)
    case None => Refuse
    case Some(scope) => Keep(ScopeKey(scope), Attachment(scope, MergeOf([], a.nodeNames)))
  }

  function NormalSnapshot(w: World, key: string, s: Snapshot): Outcome<Snapshot> {
    match NormalScope(w, key, Part(key, 2, 1), s.scope)
    case None => Refuse
    case Some(scope) => Keep(ScopeKey(scope), s.(scope := scope))
  }

  function NormalRelease(w: World, id: string, release: Release): Outcome<Release> {
    var r := release.(id := FirstNonEmpty([release.id, id]), environmentID := Trim(release.environmentID),
                      revision := Trim(release.revision), createdAt := Trim(release.createdAt));
    if r.id == "" || r.environmentID == "" || r.revision == "" || w.instant(r.createdAt).None? then Refuse
    else
      match NormalScope(w, r.environmentID, Part(r.environmentID, 2, 1), r.snapshot.scope)
      case None => Refuse
      case Some(scope) =>
        Keep(r.id, r.(environmentID := ScopeKey(scope), snapshot := r.snapshot.(scope := scope,
                                                                                revision := r.revision)))
  }

  function NormalCurrent(w: World, releases: map<string, Release>, key: string, value: string): Outcome<string> {
    match NormalScope(w, key, Part(key, 2, 1), Scope("", "", ""))
    case None => Refuse
    case Some(scope) =>
      var id := Trim(value);
      if id == "" then Skip
      else if id !in releases || releases[id].environmentID != ScopeKey(scope) then Refuse
      else Keep(ScopeKey(scope), id)
  }

  function NormalDeployment(releases: map<string, Release>, id: string, deployment: Deployment): Outcome<Deployment> {
    var d := deployment.(id := FirstNonEmpty([deployment.id, id]), environmentID := Trim(deployment.environmentID),
                         releaseID := Trim(deployment.releaseID), kind := Trim(deployment.kind),
                         status := Trim(deployment.status));
    if d.id == "" || d.environmentID == "" || d.releaseID == "" || d.releaseID !in releases ||
       releases[d.releaseID].environmentID != d.environmentID ||
       d.kind !in ["deploy", "rollback", "republish"] || d.status !in ["pending", "running", "settled", "failed"] ||
       d.sequence <= 0
    then Refuse else Keep(d.id, d)
  }

  function NormalStore(w: World, store: string): Option<string> {
    var s := Trim(w.lower(store));
    if s == "" || s == PLAINTEXT then Some(PLAINTEXT)
    else if s == ONE_PASSWORD || s == "onepassword" || s == "op" then Some(ONE_PASSWORD)
    else None
  }

  /** `validateSecretMaterial`, on a trimmed reference. */
  predicate MaterialOk(w: World, store: string, value: string, reference: string) {
    if store == PLAINTEXT then !Blank(value)
    else store == ONE_PASSWORD && Blank(value) && reference != "" && HasPrefix(w.lower(reference), "op://")
  }

  function SecretKey(s: Secret): string {
    Trim(s.scope.key) + "\n" + DefaultEnvironmentName(s.scope.environment) + "\n" + Trim(s.service) + "\n" +
    Trim(s.name)
  }

  function NormalSecret(w: World, key: string, secret: Secret): Outcome<Secret> {
    match NormalScope(w, key, Part(key, 4, 1), secret.scope)
    case None => Refuse
    case Some(scope) =>
      var store := NormalStore(w, secret.store);
      var s := secret.(scope := scope, service := FirstNonEmpty([secret.service, Part(key, 4, 2)]),
                       name := FirstNonEmpty([secret.name, Part(key, 4, 3)]), reference := Trim(secret.reference));
      if store.None? || s.service == "" || s.name == "" || !MaterialOk(w, store.value, s.value, s.reference) then Refuse
      else Keep(SecretKey(s), s.(store := store.value))
  }

  function NormalIngressCheck(w: World, key: string, record: IngressCheck): Outcome<IngressCheck> {
    match NormalScope(w, key, Part(key, 2, 1), record.scope)
    case None => Refuse
    case Some(scope) =>
      Keep(ScopeKey(scope), record.(scope := scope, publicURLs := MergeOf([], record.publicURLs),
                                    expectedIPs := MergeOf([], record.expectedIPs),
                                    checkedAt := Trim(record.checkedAt)))
  }

  // ---- what happens when two records meet under one key ----

  function Reject<T>(a: T, b: T): Option<T> {
    None
  }

  function Overwrite<T>(a: T, b: T): Option<T> {
    Some(b)
  }

  function Same(a: string, b: string): Option<string> {
    if a == b then Some(a) else None
  }

  function Unite(a: Attachment, b: Attachment): Option<Attachment> {
    Some(Attachment(if Blank(b.scope.root) then b.scope.(root := a.scope.root) else b.scope,
                    MergeOf(a.nodeNames, b.nodeNames)))
  }

  function Attachments(w: World): (string, Attachment) -> Outcome<Attachment> {
    (key, a) => NormalAttachment(w, key, a)
  }

  function Snapshots(w: World): (string, Snapshot) -> Outcome<Snapshot> {
    (key, s) => NormalSnapshot(w, key, s)
  }

  function Releases(w: World): (string, Release) -> Outcome<Release> {
    (id, r) => NormalRelease(w, id, r)
  }

  function Currents(w: World, releases: map<string, Release>): (string, string) -> Outcome<string> {
    (key, id) => NormalCurrent(w, releases, key, id)
  }

  function Deployments(releases: map<string, Release>): (string, Deployment) -> Outcome<Deployment> {
    (id, d) => NormalDeployment(releases, id, d)
  }

  function Secrets(w: World): (string, Secret) -> Outcome<Secret> {
    (key, s) => NormalSecret(w, key, s)
  }

  function IngressChecks(w: World): (string, IngressCheck) -> Outcome<IngressCheck> {
    (key, r) => NormalIngressCheck(w, key, r)
  }

  // ---- the normal form ----

  /** Every record is spelled, filed and referenced as normalisation leaves it. */
  ghost predicate Normal(w: World, s: State) {
    && Fixed(s.nodes, NormalNode)
    && Fixed(s.attachments, Attachments(w))
    && Fixed(s.snapshots, Snapshots(w))
    && Fixed(s.releases, Releases(w))
    && Fixed(s.current, Currents(w, s.releases))
    && Fixed(s.deployments, Deployments(s.releases))
    && Fixed(s.secrets, Secrets(w))
    && Fixed(s.ingressChecks, IngressChecks(w))
  }

  ghost predicate Normalizes(w: World, s: State, t: State) {
    && FoldsTo(s.nodes, NormalNode, Reject, Some(t.nodes))
    && FoldsTo(s.attachments, Attachments(w), Unite, Some(t.attachments))
    && FoldsTo(s.snapshots, Snapshots(w), Overwrite, Some(t.snapshots))
    && FoldsTo(s.releases, Releases(w), Reject, Some(t.releases))
    && FoldsTo(s.current, Currents(w, t.releases), Same, Some(t.current))
    && FoldsTo(s.deployments, Deployments(t.releases), Reject, Some(t.deployments))
    && FoldsTo(s.secrets, Secrets(w), Overwrite, Some(t.secrets))
    && FoldsTo(s.ingressChecks, IngressChecks(w), Overwrite, Some(t.ingressChecks))
  }

  /** `normalizeState`. */
  method NormalizeState(w: World, state: State) returns (r: Result<State>)
    ensures r.Ok? ==> Normalizes(w, state, r.value)
    ensures r.Err? ==> forall t :: !Normalizes(w, state, t)
    ensures Normal(w, state) ==> r == Ok(state)
    ensures WorldOk(w) && r.Ok? ==> (Normal(w, r.value) <==> PathsOk(w, r.value))
  {
    hide FoldsTo, Normal, WorldOk, PathsOk;
    if Normal(w, state) { NormalStays(w, state); }
    r := Err("normalize");
    var nodes := NormalizeMap(state.nodes, NormalNode, Reject);
    if nodes.None? {
      forall t ensures !Normalizes(w, state, t) {
        if Normalizes(w, state, t) { FoldsToOne(state.nodes, NormalNode, Reject, None, Some(t.nodes)); }
      }
      return;
    }
    var attachments := NormalizeMap(state.attachments, Attachments(w), Unite);
    if attachments.None? {
      forall t ensures !Normalizes(w, state, t) {
        if Normalizes(w, state, t) { FoldsToOne(state.attachments, Attachments(w), Unite, None, Some(t.attachments)); }
      }
      return;
    }
    var snapshots := NormalizeMap(state.snapshots, Snapshots(w), Overwrite);
    if snapshots.None? {
      forall t ensures !Normalizes(w, state, t) {
        if Normalizes(w, state, t) { FoldsToOne(state.snapshots, Snapshots(w), Overwrite, None, Some(t.snapshots)); }
      }
      return;
    }
    var releases := NormalizeMap(state.releases, Releases(w), Reject);
    if releases.None? {
      forall t ensures !Normalizes(w, state, t) {
        if Normalizes(w, state, t) { FoldsToOne(state.releases, Releases(w), Reject, None, Some(t.releases)); }
      }
      return;
    }
    forall t | Normalizes(w, state, t) ensures t.releases == releases.value {
      FoldsToOne(state.releases, Releases(w), Reject, releases, Some(t.releases));
    }
    var current := NormalizeMap(state.current, Currents(w, releases.value), Same);
    if current.None? {
      forall t ensures !Normalizes(w, state, t) {
        if Normalizes(w, state, t) { FoldsToOne(state.current, Currents(w, t.releases), Same, None, Some(t.current)); }
      }
      return;
    }
    var deployments := NormalizeMap(state.deployments, Deployments(releases.value), Reject);
    if deployments.None? {
      forall t ensures !Normalizes(w, state, t) {
        if Normalizes(w, state, t) {
          FoldsToOne(state.deployments, Deployments(t.releases), Reject, None, Some(t.deployments));
        }
      }
      return;
    }
    var secrets := NormalizeMap(state.secrets, Secrets(w), Overwrite);
    if secrets.None? {
      forall t ensures !Normalizes(w, state, t) {
        if Normalizes(w, state, t) { FoldsToOne(state.secrets, Secrets(w), Overwrite, None, Some(t.secrets)); }
      }
      return;
    }
    var ingressChecks := NormalizeMap(state.ingressChecks, IngressChecks(w), Overwrite);
    if ingressChecks.None? {
      forall t ensures !Normalizes(w, state, t) {
        if Normalizes(w, state, t) {
          FoldsToOne(state.ingressChecks, IngressChecks(w), Overwrite, None, Some(t.ingressChecks));
        }
      }
      return;
    }
    var result := State(nodes.value, attachments.value, snapshots.value, releases.value, current.value,
                        deployments.value,
                        secrets.value, ingressChecks.value);
    if Normal(w, state) { NormalizesOne(w, state, state, result); }
    if WorldOk(w) { NormalizedIsNormal(w, state, result); }
    r := Ok(result);
  }

  lemma NormalizesOne(w: World, s: State, t: State, u: State)
    requires Normalizes(w, s, t) && Normalizes(w, s, u)
    ensures t == u
  {
    hide FoldsTo;
    FoldsToOne(s.nodes, NormalNode, Reject, Some(t.nodes), Some(u.nodes));
    FoldsToOne(s.attachments, Attachments(w), Unite, Some(t.attachments), Some(u.attachments));
    FoldsToOne(s.snapshots, Snapshots(w), Overwrite, Some(t.snapshots), Some(u.snapshots));
    FoldsToOne(s.releases, Releases(w), Reject, Some(t.releases), Some(u.releases));
    FoldsToOne(s.current, Currents(w, t.releases), Same, Some(t.current), Some(u.current));
    FoldsToOne(s.deployments, Deployments(t.releases), Reject, Some(t.deployments), Some(u.deployments));
    FoldsToOne(s.secrets, Secrets(w), Overwrite, Some(t.secrets), Some(u.secrets));
    FoldsToOne(s.ingressChecks, IngressChecks(w), Overwrite, Some(t.ingressChecks), Some(u.ingressChecks));
  }

  // ---- a normal state is left alone ----

  lemma {:induction false} EnumerationExists<T>(m: map<string, T>) returns (keys: seq<string>)
    ensures Enumerates(keys, m)
    decreases |m|
  {
    hide SortStrings, StrictlySorted;
    var names := Listing(m.Keys);
    SortStringsSpec(names);
    keys := SortStrings(names);
  }

  lemma {:induction false} Listing(names: set<string>) returns (list: seq<string>)
    ensures Sorting.Distinct(list) && forall x :: x in list <==> x in names
  {
    list := [];
    if names != {} {
      var x :| x in names;
      var rest := Listing(names - {x});
      list := [x] + rest;
    }
  }

  lemma FixedFolds<T>(m: map<string, T>, f: (string, T) -> Outcome<T>, join: (T, T) -> Option<T>)
    requires Fixed(m, f)
    ensures FoldsTo(m, f, join, Some(m))
  {
    hide StrictlySorted, Folded;
    var keys := EnumerationExists(m);
    FixedStays(keys, m, f, join);
  }

  lemma NormalStays(w: World, s: State)
    requires Normal(w, s)
    ensures Normalizes(w, s, s)
  {
    hide FoldsTo, Fixed;
    FixedFolds(s.nodes, NormalNode, Reject);
    FixedFolds(s.attachments, Attachments(w), Unite);
    FixedFolds(s.snapshots, Snapshots(w), Overwrite);
    FixedFolds(s.releases, Releases(w), Reject);
    FixedFolds(s.current, Currents(w, s.releases), Same);
    FixedFolds(s.deployments, Deployments(s.releases), Reject);
    FixedFolds(s.secrets, Secrets(w), Overwrite);
    FixedFolds(s.ingressChecks, IngressChecks(w), Overwrite);
  }

  // ---- what normalisation makes of a scope ----

  lemma FirstOfTrimmed(value: string, more: seq<string>)
    requires value != "" && Trimmed(value)
    ensures FirstNonEmpty([value] + more) == value
  {
    hide Trim;
  }

  lemma {:induction false} FirstIsTrimmed(values: seq<string>)
    ensures Trimmed(FirstNonEmpty(values))
  {
    hide Trim;
    if values == [] {
      EmptyIsBlank();
    } else {
      TrimTrims(values[0]);
      FirstIsTrimmed(values[1..]);
    }
  }

  lemma DefaultsAreTrimmed()
    ensures Trimmed(DEFAULT_ENVIRONMENT) && Trimmed(DEFAULT_NODE_LABEL) && Trimmed(PLAINTEXT) && Trimmed(ONE_PASSWORD)
  {
    hide Trim, IsSpace;
    VisibleAscii('p');
    VisibleAscii('n');
    VisibleAscii('w');
    VisibleAscii('b');
    VisibleAscii('t');
    VisibleAscii('1');
    VisibleAscii('d');
    TrimmedEnds(DEFAULT_ENVIRONMENT);
    TrimmedEnds(DEFAULT_NODE_LABEL);
    TrimmedEnds(PLAINTEXT);
    TrimmedEnds(ONE_PASSWORD);
  }

  lemma EnvironmentIsTrimmed(name: string)
    ensures DefaultEnvironmentName(name) != "" && Trimmed(DefaultEnvironmentName(name))
    ensures DefaultEnvironmentName(DefaultEnvironmentName(name)) == DefaultEnvironmentName(name)
  {
    hide Trim;
    DefaultsAreTrimmed();
    TrimTrims(name);
  }

  /** A scope as normalisation makes it: its root is the one of the record, or the
      canonical path if the record has none. */
  ghost predicate ScopeMade(w: World, s: Scope) {
    && !Blank(s.root) && s.environment != "" && Trimmed(s.environment)
    && (s.root == s.key || (Trimmed(s.root) && w.canon(s.root) == Some(s.key)))
  }

  /** A canonical path that is spelled as itself. */
  ghost predicate PathOk(w: World, path: string) {
    Trimmed(path) && w.canon(path) == Some(path)
  }

  /** If the canonical path has to serve as the root, it can. */
  ghost predicate RootOk(w: World, s: Scope) {
    s.root == s.key ==> PathOk(w, s.key)
  }

  lemma ScopeOfThree(root: string, key: string, third: string)
    ensures FirstNonEmpty([root, key, third]) ==
            if !Blank(root) then Trim(root) else if !Blank(key) then Trim(key) else if !Blank(third) then Trim(third)
              else ""
  {
    hide Trim, Blank;
    assert [root, key, third][1..] == [key, third];
    FirstOfTwo(key, third);
  }

  lemma FirstOfTwo(a: string, b: string)
    ensures FirstNonEmpty([a, b]) == if !Blank(a) then Trim(a) else if !Blank(b) then Trim(b) else ""
  {
    hide Trim, Blank;
    assert [a, b][1..] == [b] && [b][1..] == [];
    assert FirstNonEmpty([b]) == if !Blank(b) then Trim(b) else "";
  }

  lemma NormalScopeMade(w: World, key: string, keyEnvironment: string, s: Scope)
    requires WorldOk(w) && NormalScope(w, key, keyEnvironment, s).Some?
    ensures ScopeMade(w, NormalScope(w, key, keyEnvironment, s).value)
  {
    hide Trim, Part, FirstNonEmpty, DefaultEnvironmentName;
    ScopeOfThree(s.root, s.key, Part(key, 2, 0));
    EnvironmentIsTrimmed(FirstNonEmpty([s.environment, keyEnvironment]));
    TrimTrims(s.root);
    TrimTrims(s.key);
  }

  /** Normalising a scope twice changes nothing exactly when its canonical path need
      not serve as the root, or can.  The key no longer matters. */
  lemma ScopeStays(w: World, key: string, keyEnvironment: string, s: Scope)
    requires ScopeMade(w, s)
    ensures NormalScope(w, key, keyEnvironment, s) == Some(s) <==> RootOk(w, s)
  {
    hide Trim, Part, FirstNonEmpty;
    ScopeOfThree(s.root, s.key, Part(key, 2, 0));
    FirstOfTrimmed(s.environment, [keyEnvironment]);
    assert [s.environment, keyEnvironment] == [s.environment] + [keyEnvironment];
    TrimTrims(s.root);
  }

  /** Seen from the record: normalising its scope twice changes nothing exactly when
      it names its root or the canonical path found is spelled as itself. */
  lemma ScopeTwice(w: World, key: string, keyEnvironment: string, s: Scope, again: string, environmentAgain: string)
    requires WorldOk(w) && NormalScope(w, key, keyEnvironment, s).Some?
    ensures
      var t := NormalScope(w, key, keyEnvironment, s).value;
      NormalScope(w, again, environmentAgain, t) == Some(t) <==> (Blank(s.root) ==> PathOk(w, t.key))
  {
    hide Trim, Part, FirstNonEmpty, DefaultEnvironmentName, WorldOk;
    NormalScopeMade(w, key, keyEnvironment, s);
    ScopeStays(w, again, environmentAgain, NormalScope(w, key, keyEnvironment, s).value);
    ScopeOfThree(s.root, s.key, Part(key, 2, 0));
    TrimTrims(s.root);
  }

  /** A directory whose name ends in a blank: when a record without a root reaches it
      through a link, reading the record again takes it for another directory. */
  lemma PaddedPathMoves(w: World, key: string, environment: string)
    requires w.canon("/l") == Some("/a ") && w.canon("/a") == Some("/a")
    ensures NormalScope(w, "", "", Scope("", "/l", "")) == Some(Scope("/a ", "/a ", DEFAULT_ENVIRONMENT))
    ensures NormalScope(w, key, environment, Scope("/a ", "/a ", DEFAULT_ENVIRONMENT)) ==
      Some(Scope("/a", "/a", DEFAULT_ENVIRONMENT))
  {
    hide Trim, IsSpace, Part, FirstNonEmpty;
    EmptyIsBlank();
    SpaceAndSlash();
    DefaultsAreTrimmed();
    ScopeOfThree("", "/l", Part("", 2, 0));
    ScopeOfThree("/a ", "/a ", Part(key, 2, 0));
    FirstOfTwo("", "");
    FirstOfTwo(DEFAULT_ENVIRONMENT, environment);
  }

  lemma SpaceAndSlash()
    ensures Trim("/l") == "/l" && Trim("/a ") == "/a" && Trimmed("/a")
  {
    hide IsSpace;
    VisibleAscii('/');
    VisibleAscii('l');
    VisibleAscii('a');
    assert IsSpace(' ') by { BlankIsSpace(); }
    TrimmedEnds("/l");
    TrimmedEnds("/a");
    assert "/a "[..2] == "/a";
  }

  lemma BlankIsSpace()
    ensures IsSpace(' ')
  {
    assert WHITE_SPACE[1..][0] == (' ', ' ');
  }

  lemma {:induction false} NotBlank(s: string, i: nat)
    requires i < |s| && !IsSpace(s[i])
    ensures !Blank(s)
  {
    hide IsSpace;
    if IsSpace(s[0]) {
      NotBlank(s[1..], i - 1);
    } else if IsSpace(s[|s| - 1]) {
      NotBlank(s[..|s| - 1], i);
    }
  }

  lemma ScopeKeyIsNotBlank(s: Scope)
    requires s.environment != "" && Trimmed(s.environment)
    ensures !Blank(ScopeKey(s))
  {
    hide Trim, IsSpace;
    TrimmedEnds(s.environment);
    assert ScopeKey(s)[|s.key| + 1] == s.environment[0];
    NotBlank(ScopeKey(s), |s.key| + 1);
  }

  // ---- what normalisation makes of a record, and when it leaves that alone ----

  lemma MergeTwice(a: seq<string>)
    ensures CleanList(MergeOf([], a)) && MergeOf([], MergeOf([], a)) == MergeOf([], a)
  {
    hide MergeOf;
    MergeIsClean([], a);
    MergeFixes(MergeOf([], a));
  }

  ghost predicate MadeAttachment(w: World, key: string, a: Attachment) {
    key == ScopeKey(a.scope) && CleanList(a.nodeNames) && (WorldOk(w) ==> ScopeMade(w, a.scope))
  }

  lemma AttachmentsAreMade(w: World)
    ensures Upholds(Attachments(w), Unite, (k, a) => MadeAttachment(w, k, a))
  {
    hide Trim, MergeOf, NormalScope, WorldOk, ScopeKey, Part, CleanList, ScopeMade;
    var f := Attachments(w);
    forall k, a | f(k, a).Keep? ensures MadeAttachment(w, f(k, a).key, f(k, a).value) {
      if WorldOk(w) { NormalScopeMade(w, k, Part(k, 2, 1), a.scope); }
      MergeTwice(a.nodeNames);
    }
    forall k, a, b | MadeAttachment(w, k, a) && MadeAttachment(w, k, b)
      ensures MadeAttachment(w, k, Unite(a, b).value)
    {
      MadeUnited(w, k, a, b);
    }
  }

  lemma MadeUnited(w: World, k: string, a: Attachment, b: Attachment)
    requires MadeAttachment(w, k, a) && MadeAttachment(w, k, b)
    ensures MadeAttachment(w, k, Unite(a, b).value)
  {
    hide Trim, MergeOf, WorldOk, CleanList;
    MergeIsClean(a.nodeNames, b.nodeNames);
  }

  /** Normalising an attachment again, or one that was united, changes nothing
      exactly when its root is all right. */
  lemma AttachmentStays(w: World, key: string, a: Attachment)
    requires WorldOk(w) && MadeAttachment(w, key, a)
    ensures NormalAttachment(w, key, a) == Keep(key, a) <==> RootOk(w, a.scope)
  {
    hide Trim, MergeOf, NormalScope, WorldOk, ScopeKey, Part, CleanList, ScopeMade, RootOk;
    ScopeStays(w, key, Part(key, 2, 1), a.scope);
    MergeFixes(a.nodeNames);
  }

  ghost predicate MadeSnapshot(w: World, key: string, s: Snapshot) {
    key == ScopeKey(s.scope) && (WorldOk(w) ==> ScopeMade(w, s.scope))
  }

  lemma SnapshotsAreMade(w: World)
    ensures Upholds(Snapshots(w), Overwrite, (k, s) => MadeSnapshot(w, k, s))
  {
    hide Trim, NormalScope, WorldOk, ScopeKey, Part, ScopeMade;
    var f := Snapshots(w);
    forall k, s | f(k, s).Keep? ensures MadeSnapshot(w, f(k, s).key, f(k, s).value) {
      if WorldOk(w) { NormalScopeMade(w, k, Part(k, 2, 1), s.scope); }
    }
  }

  lemma SnapshotStays(w: World, key: string, s: Snapshot)
    requires WorldOk(w) && MadeSnapshot(w, key, s)
    ensures NormalSnapshot(w, key, s) == Keep(key, s) <==> RootOk(w, s.scope)
  {
    hide Trim, NormalScope, WorldOk, ScopeKey, Part, ScopeMade, RootOk;
    ScopeStays(w, key, Part(key, 2, 1), s.scope);
  }

  ghost predicate MadeCheck(w: World, key: string, r: IngressCheck) {
    && key == ScopeKey(r.scope) && CleanList(r.publicURLs) && CleanList(r.expectedIPs) && Trimmed(r.checkedAt)
    && (WorldOk(w) ==> ScopeMade(w, r.scope))
  }

  lemma ChecksAreMade(w: World)
    ensures Upholds(IngressChecks(w), Overwrite, (k, r) => MadeCheck(w, k, r))
  {
    hide Trim, MergeOf, NormalScope, WorldOk, ScopeKey, Part, CleanList, ScopeMade;
    var f := IngressChecks(w);
    forall k, r | f(k, r).Keep? ensures MadeCheck(w, f(k, r).key, f(k, r).value) {
      if WorldOk(w) { NormalScopeMade(w, k, Part(k, 2, 1), r.scope); }
      MergeTwice(r.publicURLs);
      MergeTwice(r.expectedIPs);
      TrimTrims(r.checkedAt);
    }
  }

  lemma IngressCheckStays(w: World, key: string, r: IngressCheck)
    requires WorldOk(w) && MadeCheck(w, key, r)
    ensures NormalIngressCheck(w, key, r) == Keep(key, r) <==> RootOk(w, r.scope)
  {
    hide Trim, MergeOf, NormalScope, WorldOk, ScopeKey, Part, CleanList, ScopeMade, RootOk;
    ScopeStays(w, key, Part(key, 2, 1), r.scope);
    MergeFixes(r.publicURLs);
    MergeFixes(r.expectedIPs);
  }

  ghost predicate MadeRelease(w: World, id: string, r: Release) {
    && r.id == id && id != "" && Trimmed(id) && r.revision != "" && Trimmed(r.revision)
    && Trimmed(r.createdAt) && w.instant(r.createdAt).Some?
    && r.environmentID == ScopeKey(r.snapshot.scope) && r.snapshot.revision == r.revision
    && (WorldOk(w) ==> ScopeMade(w, r.snapshot.scope))
  }

  lemma ReleasesAreMade(w: World)
    ensures Upholds(Releases(w), Reject, (id, r) => MadeRelease(w, id, r))
  {
    hide Trim, NormalScope, WorldOk, ScopeKey, Part, FirstNonEmpty, ScopeMade;
    var f := Releases(w);
    forall id, r | f(id, r).Keep? ensures MadeRelease(w, f(id, r).key, f(id, r).value) {
      var environmentID := Trim(r.environmentID);
      if WorldOk(w) { NormalScopeMade(w, environmentID, Part(environmentID, 2, 1), r.snapshot.scope); }
      FirstIsTrimmed([r.id, id]);
      TrimTrims(r.revision);
      TrimTrims(r.createdAt);
    }
  }

  lemma ReleaseStays(w: World, id: string, r: Release)
    requires WorldOk(w) && MadeRelease(w, id, r)
    ensures NormalRelease(w, id, r) == Keep(id, r) <==> RootOk(w, r.snapshot.scope)
  {
    hide Trim, NormalScope, WorldOk, ScopeKey, Part, FirstNonEmpty, RootOk;
    var environmentID := Trim(r.environmentID);
    ScopeStays(w, environmentID, Part(environmentID, 2, 1), r.snapshot.scope);
    ScopeKeyIsNotBlank(r.snapshot.scope);
    FirstOfTrimmed(id, [id]);
    assert [id, id] == [id] + [id];
  }

  ghost predicate MadeCurrent(releases: map<string, Release>, key: string, id: string) {
    id != "" && Trimmed(id) && id in releases && releases[id].environmentID == key
  }

  lemma CurrentsAreMade(w: World, releases: map<string, Release>)
    ensures Upholds(Currents(w, releases), Same, (k, id) => MadeCurrent(releases, k, id))
  {
    hide Trim, NormalScope, ScopeKey, Part;
    var f := Currents(w, releases);
    forall k, v | f(k, v).Keep? ensures MadeCurrent(releases, f(k, v).key, f(k, v).value) { TrimTrims(v); }
  }

  /** The key that is worked out from a key alone. */
  function Reread(w: World, key: string): Option<string> {
    if Blank(Part(key, 2, 0)) then None else EnvironmentStateKey(w, Part(key, 2, 0), Part(key, 2, 1))
  }

  lemma PartIsTrimmed(key: string, n: nat, i: nat)
    requires n > 0
    ensures Trimmed(Part(key, n, i))
  {
    hide Trim, SplitN;
    var parts := SplitN(key, n);
    if i < |parts| { TrimTrims(parts[i]); }
    EmptyIsBlank();
  }

  /** The two parts of a key are what stands before and after its first newline. */
  lemma KeyParts(key: string)
    requires '\n' in key
    ensures
      var i := NewlineIn(key);
      i < |key| && Part(key, 2, 0) == Trim(key[..i]) && Part(key, 2, 1) == Trim(key[i + 1..])
  {
    hide Trim;
    var i := NewlineIn(key);
    assert key[..|key|] == key;
    assert SplitN(key[i + 1..], 1) == [key[i + 1..]];
    assert SplitN(key, 2) == [key[..i]] + [key[i + 1..]];
  }

  lemma {:induction false} FirstNewline(a: string, b: string)
    requires '\n' !in a
    ensures NewlineIn(a + "\n" + b) == |a|
  {
    if a != "" {
      FirstNewline(a[1..], b);
      assert (a + "\n" + b)[1..] == a[1..] + "\n" + b;
    }
  }

  lemma KeyOfParts(head: string, tail: string)
    requires '\n' !in head
    ensures Part(head + "\n" + tail, 2, 0) == Trim(head) && Part(head + "\n" + tail, 2, 1) == Trim(tail)
  {
    hide Trim;
    var key := head + "\n" + tail;
    FirstNewline(head, tail);
    assert key[|head|] == '\n';
    KeyParts(key);
    assert key[..|head|] == head && key[|head| + 1..] == tail;
  }

  /** Which canonical paths give a key that can be worked out again, for a key that
      starts with the line `head`: a single line, exactly if it is spelled as
      itself; several, exactly if the first line is itself a path spelled as itself
      and what follows does not begin with white space (unless the path found for
      the first line is one of several lines again). */
  lemma RereadExactly(w: World, head: string, tail: string)
    requires '\n' !in head && !Blank(tail)
    ensures
      var key := head + "\n" + tail;
      && (Trimmed(tail) ==> (Reread(w, key) == Some(key) <==> !Blank(head) && CanonicalKey(w, head) == Some(head)))
      && (!Trimmed(tail) && Reread(w, key) == Some(key) ==>
          CanonicalKey(w, head).Some? && '\n' in CanonicalKey(w, head).value)
  {
    hide Trim, Part;
    var key := head + "\n" + tail;
    KeyOfParts(head, tail);
    TrimTrims(head);
    TrimTrims(tail);
    if Reread(w, key) == Some(key) {
      var path := CanonicalKey(w, head).value;
      assert key == path + "\n" + Trim(tail);
      SplitAlike(head, tail, path, Trim(tail));
    }
  }

  lemma SplitAlike(a: string, b: string, c: string, d: string)
    requires '\n' !in a && a + "\n" + b == c + "\n" + d
    ensures (b == d ==> a == c) && ('\n' !in c ==> a == c && b == d)
  {
    var key := a + "\n" + b;
    if b == d {
      assert |a| == |c|;
      assert key[..|a|] == a && key[..|c|] == c;
    }
    if '\n' !in c {
      FirstNewline(a, b);
      FirstNewline(c, d);
      assert key[..|a|] == a && key[..|c|] == c;
      assert key[|a| + 1..] == b && key[|c| + 1..] == d;
    }
  }

  lemma RereadIs(w: World, key: string)
    ensures
      var o := NormalScope(w, key, Part(key, 2, 1), Scope("", "", ""));
      Reread(w, key) == if o.Some? then Some(ScopeKey(o.value)) else None
  {
    hide Trim, Part, FirstNonEmpty;
    EmptyIsBlank();
    ScopeOfThree("", "", Part(key, 2, 0));
    FirstOfTwo("", Part(key, 2, 1));
    PartIsTrimmed(key, 2, 0);
    PartIsTrimmed(key, 2, 1);
  }

  /** A current entry has nothing but its key to say where it belongs: it is left
      alone exactly when the key can be worked out again. */
  lemma CurrentStays(w: World, releases: map<string, Release>, key: string, id: string)
    requires MadeCurrent(releases, key, id)
    ensures NormalCurrent(w, releases, key, id) == Keep(key, id) <==> Reread(w, key) == Some(key)
  {
    hide Trim, NormalScope, ScopeKey, Part, Reread;
    RereadIs(w, key);
  }

  lemma DeploymentsStay(releases: map<string, Release>)
    ensures Upholds(Deployments(releases), Reject, (id, d) => NormalDeployment(releases, id, d) == Keep(id, d))
  {
    hide Trim, FirstNonEmpty;
    var f := Deployments(releases);
    forall id, d | f(id, d).Keep? ensures f(f(id, d).key, f(id, d).value) == f(id, d) {
      var t := f(id, d);
      FirstIsTrimmed([d.id, id]);
      FirstOfTrimmed(t.key, [t.key]);
      assert [t.key, t.key] == [t.key] + [t.key];
      TrimTrims(d.environmentID);
      TrimTrims(d.releaseID);
      TrimTrims(d.kind);
      TrimTrims(d.status);
    }
  }

  ghost predicate MadeSecret(w: World, key: string, s: Secret) {
    && key == SecretKey(s) && s.service != "" && Trimmed(s.service) && s.name != "" && Trimmed(s.name) &&
    Trimmed(s.reference)
    && MaterialOk(w, s.store, s.value, s.reference)
    && (WorldOk(w) ==> NormalStore(w, s.store) == Some(s.store) && ScopeMade(w, s.scope))
  }

  lemma SecretsAreMade(w: World)
    ensures Upholds(Secrets(w), Overwrite, (k, s) => MadeSecret(w, k, s))
  {
    hide NormalSecret, MadeSecret;
    var f := Secrets(w);
    forall k, s | f(k, s).Keep? ensures MadeSecret(w, f(k, s).key, f(k, s).value) { SecretIsMade(w, k, s); }
  }

  lemma SecretIsMade(w: World, k: string, s: Secret)
    requires NormalSecret(w, k, s).Keep?
    ensures MadeSecret(w, NormalSecret(w, k, s).key, NormalSecret(w, k, s).value)
  {
    hide Trim, NormalScope, WorldOk, ScopeMade, SecretKey, Part, FirstNonEmpty, NormalStore, MaterialOk;
    var t := NormalSecret(w, k, s);
    if WorldOk(w) {
      NormalScopeMade(w, k, Part(k, 4, 1), s.scope);
      StoreTwice(w, s.store);
    }
    FirstIsTrimmed([s.service, Part(k, 4, 2)]);
    FirstIsTrimmed([s.name, Part(k, 4, 3)]);
    TrimTrims(s.reference);
    SecretKeySame(s.(scope := t.value.scope, service := t.value.service, name := t.value.name,
                     reference := t.value.reference), t.value);
  }

  lemma SecretStays(w: World, key: string, s: Secret)
    requires WorldOk(w) && MadeSecret(w, key, s)
    ensures NormalSecret(w, key, s) == Keep(key, s) <==> RootOk(w, s.scope)
  {
    hide Trim, NormalScope, WorldOk, ScopeMade, SecretKey, Part, FirstNonEmpty, NormalStore, MaterialOk, RootOk;
    ScopeStays(w, key, Part(key, 4, 1), s.scope);
    var service, name := Part(key, 4, 2), Part(key, 4, 3);
    FirstOfTrimmed(s.service, [service]);
    FirstOfTrimmed(s.name, [name]);
    assert [s.service, service] == [s.service] + [service];
    assert [s.name, name] == [s.name] + [name];
  }

  lemma SecretKeySame(a: Secret, b: Secret)
    ensures a.scope == b.scope && a.service == b.service && a.name == b.name ==> SecretKey(a) == SecretKey(b)
  {
    hide Trim;
  }

  lemma StoreTwice(w: World, store: string)
    requires WorldOk(w)
    ensures NormalStore(w, store).Some? ==> NormalStore(w, NormalStore(w, store).value) == NormalStore(w, store)
  {
    hide Trim;
    DefaultsAreTrimmed();
  }

  lemma NodesStay()
    ensures Upholds(NormalNode, Reject, (name, n) => NormalNode(name, n) == Keep(name, n))
  {
    hide Trim, NodeLabels;
    forall k, n | NormalNode(k, n).Keep?
      ensures NormalNode(NormalNode(k, n).key, NormalNode(k, n).value) == NormalNode(k, n)
    {
      LabelsTwice(n.labels);
      DirIsNotBlank();
    }
  }

  lemma DirIsNotBlank()
    ensures !Blank(DEFAULT_AGENT_STATE_DIR)
  {
    hide Trim, IsSpace;
    VisibleAscii('/');
    VisibleAscii('e');
    TrimmedEnds(DEFAULT_AGENT_STATE_DIR);
  }

  lemma LabelsTwice(labels: seq<string>)
    ensures NodeLabels(NodeLabels(labels)) == NodeLabels(labels)
  {
    hide Trim;
    DefaultsAreTrimmed();
    UniqClean(labels, |labels|);
    var once := NodeLabels(labels);
    UniqFixes(once, |once|);
    assert once[..|once|] == once;
  }

  // ---- when the result is normal ----

  /** What holds of every normalised state. */
  ghost predicate Made(w: World, t: State) {
    && Fixed(t.nodes, NormalNode)
    && (forall k <- t.attachments :: MadeAttachment(w, k, t.attachments[k]))
    && (forall k <- t.snapshots :: MadeSnapshot(w, k, t.snapshots[k]))
    && (forall id <- t.releases :: MadeRelease(w, id, t.releases[id]))
    && (forall k <- t.current :: MadeCurrent(t.releases, k, t.current[k]))
    && Fixed(t.deployments, Deployments(t.releases))
    && (forall k <- t.secrets :: MadeSecret(w, k, t.secrets[k]))
    && (forall k <- t.ingressChecks :: MadeCheck(w, k, t.ingressChecks[k]))
  }

  lemma NormalizedIsMade(w: World, s: State, t: State)
    requires Normalizes(w, s, t)
    ensures Made(w, t)
  {
    hide FoldsTo, Upholds, MadeAttachment, MadeSnapshot, MadeRelease, MadeCurrent, MadeSecret, MadeCheck, NormalNode,
         NormalDeployment;
    NodesStay();
    FoldsToUpholds(s.nodes, NormalNode, Reject, t.nodes, (name, n) => NormalNode(name, n) == Keep(name, n));
    AttachmentsAreMade(w);
    FoldsToUpholds(s.attachments, Attachments(w), Unite, t.attachments, (k, a) => MadeAttachment(w, k, a));
    SnapshotsAreMade(w);
    FoldsToUpholds(s.snapshots, Snapshots(w), Overwrite, t.snapshots, (k, r) => MadeSnapshot(w, k, r));
    ReleasesAreMade(w);
    FoldsToUpholds(s.releases, Releases(w), Reject, t.releases, (id, r) => MadeRelease(w, id, r));
    CurrentsAreMade(w, t.releases);
    FoldsToUpholds(s.current, Currents(w, t.releases), Same, t.current, (k, id) => MadeCurrent(t.releases, k, id));
    DeploymentsStay(t.releases);
    FoldsToUpholds(s.deployments, Deployments(t.releases), Reject, t.deployments,
                   (id, d) => NormalDeployment(t.releases, id, d) == Keep(id, d));
    SecretsAreMade(w);
    FoldsToUpholds(s.secrets, Secrets(w), Overwrite, t.secrets, (k, r) => MadeSecret(w, k, r));
    ChecksAreMade(w);
    FoldsToUpholds(s.ingressChecks, IngressChecks(w), Overwrite, t.ingressChecks, (k, r) => MadeCheck(w, k, r));
  }

  /** Every canonical path that serves as a root is spelled as itself, and every
      current key can be worked out again. */
  ghost predicate PathsOk(w: World, t: State) {
    && (forall k <- t.attachments :: RootOk(w, t.attachments[k].scope))
    && (forall k <- t.snapshots :: RootOk(w, t.snapshots[k].scope))
    && (forall id <- t.releases :: RootOk(w, t.releases[id].snapshot.scope))
    && (forall k <- t.current :: Reread(w, k) == Some(k))
    && (forall k <- t.secrets :: RootOk(w, t.secrets[k].scope))
    && (forall k <- t.ingressChecks :: RootOk(w, t.ingressChecks[k].scope))
  }

  /** A canonical path on one line that is spelled as itself. */
  ghost predicate CanonOk(w: World, path: string) {
    '\n' !in path && PathOk(w, path)
  }

  /** It is enough that every canonical path in the result is of that kind. */
  lemma OrdinaryPathsOk(w: World, t: State)
    requires WorldOk(w) && Made(w, t)
    requires forall k <- t.attachments :: CanonOk(w, t.attachments[k].scope.key)
    requires forall k <- t.snapshots :: CanonOk(w, t.snapshots[k].scope.key)
    requires forall id <- t.releases :: CanonOk(w, t.releases[id].snapshot.scope.key)
    requires forall k <- t.secrets :: CanonOk(w, t.secrets[k].scope.key)
    requires forall k <- t.ingressChecks :: CanonOk(w, t.ingressChecks[k].scope.key)
    ensures PathsOk(w, t)
  {
    hide Trim, Reread, MadeAttachment, MadeSnapshot, MadeSecret, MadeCheck, Fixed;
    forall k <- t.current ensures Reread(w, k) == Some(k) {
      var scope := t.releases[t.current[k]].snapshot.scope;
      assert !Blank(scope.environment) && !Blank(scope.key);
      RereadExactly(w, scope.key, scope.environment);
    }
  }

  lemma MadeIsNormal(w: World, t: State)
    requires WorldOk(w) && Made(w, t)
    ensures Normal(w, t) <==> PathsOk(w, t)
  {
    hide WorldOk, RootOk, Reread, MadeAttachment, MadeSnapshot, MadeRelease, MadeCurrent, MadeSecret, MadeCheck,
         NormalNode, NormalAttachment, NormalSnapshot, NormalRelease, NormalCurrent, NormalDeployment, NormalSecret,
         NormalIngressCheck;
    forall k <- t.attachments
      ensures Attachments(w)(k, t.attachments[k]) == Keep(k, t.attachments[k]) <==> RootOk(w, t.attachments[k].scope)
    {
      AttachmentStays(w, k, t.attachments[k]);
    }
    forall k <- t.snapshots
      ensures Snapshots(w)(k, t.snapshots[k]) == Keep(k, t.snapshots[k]) <==> RootOk(w, t.snapshots[k].scope)
    {
      SnapshotStays(w, k, t.snapshots[k]);
    }
    forall id <- t.releases
      ensures Releases(w)(id, t.releases[id]) == Keep(id, t.releases[id]) <==> RootOk(w, t.releases[id].snapshot.scope)
    {
      ReleaseStays(w, id, t.releases[id]);
    }
    forall k <- t.current
      ensures Currents(w, t.releases)(k, t.current[k]) == Keep(k, t.current[k]) <==> Reread(w, k) == Some(k)
    {
      CurrentStays(w, t.releases, k, t.current[k]);
    }
    forall k <- t.secrets
      ensures Secrets(w)(k, t.secrets[k]) == Keep(k, t.secrets[k]) <==> RootOk(w, t.secrets[k].scope)
    {
      SecretStays(w, k, t.secrets[k]);
    }
    forall k <- t.ingressChecks
      ensures IngressChecks(w)(k, t.ingressChecks[k]) == Keep(k, t.ingressChecks[k]) <==>
        RootOk(w, t.ingressChecks[k].scope)
    {
      IngressCheckStays(w, k, t.ingressChecks[k]);
    }
  }

  /** Normalising again changes nothing exactly when the canonical paths in the
      result allow it. */
  lemma NormalizedIsNormal(w: World, s: State, t: State)
    requires WorldOk(w) && Normalizes(w, s, t)
    ensures Normal(w, t) <==> PathsOk(w, t)
  {
    hide Normal, PathsOk, Made, Normalizes, WorldOk;
    NormalizedIsMade(w, s, t);
    MadeIsNormal(w, t);
  }
}
