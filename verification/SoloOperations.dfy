/** The operations on the solo state, and what normalisation guarantees them. */
module SoloOperations {
  import opened Text
  import opened Sorting
  import opened StringLists
  import opened RecordMaps
  import opened SoloStates

  // ---- what a normal state guarantees ----

  /** Keys are the records' own identities and no reference dangles: every current
      entry and every deployment names an existing release of its own
      environment. */
  ghost predicate Consistent(s: State) {
    && (forall id <- s.releases :: s.releases[id].id == id)
    && (forall id <- s.deployments :: s.deployments[id].id == id)
    && (forall key <- s.current :: s.current[key] in s.releases && s.releases[s.current[key]].environmentID == key)
    && (forall id <- s.deployments ::
          s.deployments[id].releaseID in s.releases &&
          s.releases[s.deployments[id].releaseID].environmentID == s.deployments[id].environmentID)
    && (forall id <- s.releases :: s.releases[id].environmentID == ScopeKey(s.releases[id].snapshot.scope))
    && (forall key <- s.attachments ::
        key == ScopeKey(s.attachments[key].scope) &&
        CleanList(s.attachments[key].nodeNames))
    && (forall key <- s.snapshots :: key == ScopeKey(s.snapshots[key].scope))
    && (forall key <- s.secrets :: key == SecretKey(s.secrets[key]))
    && (forall key <- s.ingressChecks :: key == ScopeKey(s.ingressChecks[key].scope))
  }

  /** Whatever normalisation gives is consistent, whatever the paths are. */
  lemma NormalizedIsConsistent(w: World, s: State, t: State)
    requires Normalizes(w, s, t)
    ensures Consistent(t)
  {
    hide Normalizes, MadeAttachment, MadeSnapshot, MadeSecret, MadeCheck, MadeRelease, MadeCurrent, CleanList, ScopeKey,
         SecretKey, Fixed;
    NormalizedIsMade(w, s, t);
    DeploymentsAreFiled(t.releases, t.deployments);
    MadeIsFiled(w, t);
  }

  lemma MadeIsFiled(w: World, t: State)
    requires Made(w, t)
    ensures forall id <- t.releases ::
      t.releases[id].id == id &&
      t.releases[id].environmentID == ScopeKey(t.releases[id].snapshot.scope)
    ensures forall key <- t.current :: t.current[key] in t.releases && t.releases[t.current[key]].environmentID == key
    ensures forall key <- t.attachments ::
      key == ScopeKey(t.attachments[key].scope) &&
      CleanList(t.attachments[key].nodeNames)
    ensures forall key <- t.snapshots :: key == ScopeKey(t.snapshots[key].scope)
    ensures forall key <- t.secrets :: key == SecretKey(t.secrets[key])
    ensures forall key <- t.ingressChecks :: key == ScopeKey(t.ingressChecks[key].scope)
  {
    hide Trim, ScopeKey, SecretKey, CleanList, ScopeMade, WorldOk, NormalStore, MaterialOk, Fixed;
  }

  lemma NormalIsConsistent(w: World, s: State)
    requires Normal(w, s)
    ensures Consistent(s)
  {
    hide Normal, Normalizes, Consistent;
    NormalStays(w, s);
    NormalizedIsConsistent(w, s, s);
  }

  lemma DeploymentsAreFiled(releases: map<string, Release>, m: map<string, Deployment>)
    requires Fixed(m, Deployments(releases))
    ensures forall id <- m ::
      m[id].id == id && m[id].releaseID in releases &&
      releases[m[id].releaseID].environmentID == m[id].environmentID
  {
    hide Trim, FirstNonEmpty;
    forall id <- m
      ensures m[id].id == id && m[id].releaseID in releases &&
        releases[m[id].releaseID].environmentID == m[id].environmentID
    {
      assert Deployments(releases)(id, m[id]) == Keep(id, m[id]);
    }
  }

  // ---- what normalisation loses ----

  lemma FoldsToKeepsAll<T(!new)>(m: map<string, T>, f: (string, T) -> Outcome<T>, join: (T, T) -> Option<T>,
                                 t: map<string, T>)
    requires FoldsTo(m, f, join, Some(t)) && Agreeing(join)
    ensures forall k <- m :: f(k, m[k]).Keep? ==> f(k, m[k]).key in t && t[f(k, m[k]).key] == f(k, m[k]).value
    ensures forall k <- m :: !f(k, m[k]).Refuse?
    ensures forall k <- t :: exists source <- m :: f(source, m[source]) == Keep(k, t[k])
  {
    hide StrictlySorted, Folded;
    var keys :| Enumerates(keys, m) && Folded(keys, m, |keys|, f, join) == Some(t);
    FoldedKeepsAll(keys, m, |keys|, f, join);
    FoldedKeys(keys, m, |keys|, f, join);
    forall k <- m ensures !f(k, m[k]).Refuse?
      ensures f(k, m[k]).Keep? ==> f(k, m[k]).key in t && t[f(k, m[k]).key] == f(k, m[k]).value
    {
      var i :| 0 <= i < |keys| && keys[i] == k;
      if f(k, m[k]).Keep? { assert Lands(keys, m, |keys|, f, f(k, m[k]).key, i); }
    }
    forall k <- t ensures exists source <- m :: f(source, m[source]) == Keep(k, t[k]) {
      var i :| Lands(keys, m, |keys|, f, k, i);
      assert keys[i] in keys;
      assert f(keys[i], m[keys[i]]) == Keep(k, t[k]);
    }
  }

  lemma FoldsToSize<T(!new)>(m: map<string, T>, f: (string, T) -> Outcome<T>, join: (T, T) -> Option<T>,
                             t: map<string, T>)
    requires FoldsTo(m, f, join, Some(t)) && (forall a, b :: join(a, b).None?) && (forall k, v :: !f(k, v).Skip?)
    ensures |t| == |m|
  {
    hide StrictlySorted, Folded;
    var keys :| Enumerates(keys, m) && Folded(keys, m, |keys|, f, join) == Some(t);
    FoldedSize(keys, m, |keys|, f, join);
    EnumerationSize(keys, m);
  }

  lemma EnumerationSize<T>(keys: seq<string>, m: map<string, T>)
    requires Enumerates(keys, m)
    ensures |keys| == |m|
  {
    hide Less;
    SortedSize(keys);
    assert (set k <- keys) == m.Keys;
  }

  lemma {:induction false} SortedSize(keys: seq<string>)
    requires StrictlySorted(keys)
    ensures |(set k <- keys)| == |keys|
  {
    hide Less;
    if keys != [] {
      var n := |keys| - 1;
      SortedSize(keys[..n]);
      NewKey(keys, n);
      assert (set k <- keys) == (set k <- keys[..n]) + {keys[n]};
    }
  }

  /** Every record of `m` is in `t`, as normalised, unless `f` says to skip it. */
  ghost predicate AllKept<T>(m: map<string, T>, f: (string, T) -> Outcome<T>, t: map<string, T>) {
    forall k <- m :: f(k, m[k]).Skip? || (f(k, m[k]).Keep? && f(k, m[k]).key in t &&
                                          t[f(k, m[k]).key] == f(k, m[k]).value)
  }

  lemma FoldsToAllKept<T(!new)>(m: map<string, T>, f: (string, T) -> Outcome<T>, join: (T, T) -> Option<T>,
                                t: map<string, T>)
    requires FoldsTo(m, f, join, Some(t)) && Agreeing(join)
    ensures AllKept(m, f, t)
  {
    hide FoldsTo;
    FoldsToKeepsAll(m, f, join, t);
  }

  lemma RejectAgrees<T(!new)>()
    ensures Agreeing<T>(Reject)
  {
  }

  /** Normalisation loses no node, no release and no deployment, and drops only
      blank current entries: each is there under its identity, spelled out. */
  lemma NothingIsLost(w: World, s: State, t: State)
    requires Normalizes(w, s, t)
    ensures |t.nodes| == |s.nodes| && |t.releases| == |s.releases| && |t.deployments| == |s.deployments|
    ensures AllKept(s.releases, Releases(w), t.releases)
    ensures AllKept(s.deployments, Deployments(t.releases), t.deployments)
    ensures AllKept(s.current, Currents(w, t.releases), t.current)
    ensures forall key, id :: Currents(w, t.releases)(key, id).Skip? ==> Blank(id)
  {
    hide FoldsTo, AllKept, Trim, NormalScope, Part, FirstNonEmpty, ScopeKey, NodeLabels, Agreeing;
    RejectAgrees<Release>();
    RejectAgrees<Deployment>();
    FoldsToSize(s.nodes, NormalNode, Reject, t.nodes);
    FoldsToSize(s.releases, Releases(w), Reject, t.releases);
    FoldsToSize(s.deployments, Deployments(t.releases), Reject, t.deployments);
    FoldsToAllKept(s.releases, Releases(w), Reject, t.releases);
    FoldsToAllKept(s.deployments, Deployments(t.releases), Reject, t.deployments);
    SameAgrees();
    FoldsToAllKept(s.current, Currents(w, t.releases), Same, t.current);
  }

  lemma SameAgrees()
    ensures Agreeing(Same)
  {
  }

  /** Some record of `m` is filed under `key` and has the name, up to white space. */
  ghost predicate Contributes(w: World, m: map<string, Attachment>, key: string, name: string) {
    exists source <- m ::
      && NormalAttachment(w, source, m[source]).Keep? && NormalAttachment(w, source, m[source]).key == key
      && Occurs(m[source].nodeNames, name)
  }

  // ---- what normalisation refuses ----

  /** No record is refused, and no two that `clash` end up under one key. */
  ghost predicate Acceptable<T(!new)>(m: map<string, T>, f: (string, T) -> Outcome<T>, clash: (T, T) -> bool) {
    && (forall k <- m :: !f(k, m[k]).Refuse?)
    && (forall j, k :: j in m && k in m && j != k && Meet(m, f, j, k) ==> !clash(f(j, m[j]).value, f(k, m[k]).value))
  }

  /** Two records end up under one key. */
  ghost predicate Meet<T>(m: map<string, T>, f: (string, T) -> Outcome<T>, j: string, k: string)
    requires j in m && k in m
  {
    f(j, m[j]).Keep? && f(k, m[k]).Keep? && f(j, m[j]).key == f(k, m[k]).key
  }

  lemma FoldsToSome<T(!new)>(m: map<string, T>, f: (string, T) -> Outcome<T>, join: (T, T) -> Option<T>,
                             clash: (T, T) -> bool)
    requires Agreeing(join)
    requires forall a, b :: clash(a, b) <==> join(a, b).None?
    requires forall a, b :: clash(a, b) <==> clash(b, a)
    ensures (exists t :: FoldsTo(m, f, join, Some(t))) <==> Acceptable(m, f, clash)
  {
    hide Folded, Agreeing, StrictlySorted;
    var keys := EnumerationExists(m);
    FoldedSucceeds(keys, m, |keys|, f, join);
    CompatibleIsAcceptable(keys, m, f, join, clash);
    if Acceptable(m, f, clash) {
      assert FoldsTo(m, f, join, Some(Folded(keys, m, |keys|, f, join).value));
    }
    if t :| FoldsTo(m, f, join, Some(t)) {
      assert FoldsTo(m, f, join, Folded(keys, m, |keys|, f, join));
      FoldsToOne(m, f, join, Some(t), Folded(keys, m, |keys|, f, join));
    }
  }

  lemma CompatibleIsAcceptable<T(!new)>(keys: seq<string>, m: map<string, T>,
                                        f: (string, T) -> Outcome<T>, join: (T, T) -> Option<T>, clash: (T, T) -> bool)
    requires Enumerates(keys, m)
    requires forall a, b :: clash(a, b) <==> join(a, b).None?
    requires forall a, b :: clash(a, b) <==> clash(b, a)
    ensures Compatible(keys, m, |keys|, f, join) <==> Acceptable(m, f, clash)
  {
    hide Less;
    if Compatible(keys, m, |keys|, f, join) {
      forall k <- m ensures !f(k, m[k]).Refuse? { var i :| 0 <= i < |keys| && keys[i] == k; }
      forall j, k | j in m && k in m && j != k && Meet(m, f, j, k) ensures !clash(f(j, m[j]).value, f(k, m[k]).value) {
        var p :| 0 <= p < |keys| && keys[p] == j;
        var q :| 0 <= q < |keys| && keys[q] == k;
        assert Lands(keys, m, |keys|, f, f(j, m[j]).key, p) && Lands(keys, m, |keys|, f, f(j, m[j]).key, q);
      }
    }
    if Acceptable(m, f, clash) {
      forall i, j, k | i < j && Lands(keys, m, |keys|, f, k, i) && Lands(keys, m, |keys|, f, k, j)
        ensures join(f(keys[i], m[keys[i]]).value, f(keys[j], m[keys[j]]).value).Some?
      {
        assert Less(keys[i], keys[j]);
        LessIrreflexive(keys[i]);
        assert keys[i] in m && keys[j] in m && Meet(m, f, keys[i], keys[j]);
      }
      forall i | 0 <= i < |keys| ensures !f(keys[i], m[keys[i]]).Refuse? { assert keys[i] in keys; }
    }
  }

  lemma {:induction false} FoldedNeverFails<T(!new)>(keys: seq<string>, m: map<string, T>, n: nat,
                                                     f: (string, T) -> Outcome<T>, join: (T, T) -> Option<T>)
    requires n <= |keys| && (forall k <- keys :: k in m) && forall a, b :: join(a, b).Some?
    ensures Folded(keys, m, n, f, join).Some? <==> forall i :: 0 <= i < n ==> !f(keys[i], m[keys[i]]).Refuse?
  {
    if n > 0 { FoldedNeverFails(keys, m, n - 1, f, join); }
  }

  /** No record is refused. */
  ghost predicate NoneRefused<T>(m: map<string, T>, f: (string, T) -> Outcome<T>) {
    forall k <- m :: !f(k, m[k]).Refuse?
  }

  lemma FoldsToUnlessRefused<T(!new)>(m: map<string, T>, f: (string, T) -> Outcome<T>, join: (T, T) -> Option<T>)
    requires forall a, b :: join(a, b).Some?
    ensures (exists t :: FoldsTo(m, f, join, Some(t))) <==> NoneRefused(m, f)
  {
    hide Folded, StrictlySorted;
    var keys := EnumerationExists(m);
    FoldedNeverFails(keys, m, |keys|, f, join);
    if NoneRefused(m, f) {
      forall i | 0 <= i < |keys| ensures !f(keys[i], m[keys[i]]).Refuse? { assert keys[i] in keys; }
      assert FoldsTo(m, f, join, Some(Folded(keys, m, |keys|, f, join).value));
    }
    if t :| FoldsTo(m, f, join, Some(t)) {
      assert FoldsTo(m, f, join, Folded(keys, m, |keys|, f, join));
      FoldsToOne(m, f, join, Some(t), Folded(keys, m, |keys|, f, join));
      forall k <- m ensures !f(k, m[k]).Refuse? { var i :| 0 <= i < |keys| && keys[i] == k; }
    }
  }

  predicate Always<T>(a: T, b: T) {
    true
  }

  predicate Differ(a: string, b: string) {
    a != b
  }

  /** The records that need no other record are all acceptable, and no two
      releases claim one identifier. */
  ghost predicate RecordsOk(w: World, s: State) {
    && Acceptable(s.nodes, NormalNode, Always) && NoneRefused(s.attachments, Attachments(w)) &&
    NoneRefused(s.snapshots, Snapshots(w))
    && Acceptable(s.releases, Releases(w), Always)
    && NoneRefused(s.secrets, Secrets(w)) && NoneRefused(s.ingressChecks, IngressChecks(w))
  }

  /** Every reference is to one of these releases, of the right environment, no
      environment has two current ones, and no two deployments one identifier. */
  ghost predicate ReferencesOk(w: World, s: State, releases: map<string, Release>) {
    && Acceptable(s.current, Currents(w, releases), Differ)
    && Acceptable(s.deployments, Deployments(releases), Always)
  }

  /** Exactly the states with acceptable records and references are accepted. */
  lemma AcceptedExactly(w: World, s: State)
    ensures (exists t :: Normalizes(w, s, t)) <==>
            && RecordsOk(w, s)
            && exists releases ::
            FoldsTo(s.releases, Releases(w), Reject, Some(releases)) &&
            ReferencesOk(w, s, releases)
  {
    hide FoldsTo, Acceptable, NoneRefused, Agreeing;
    RejectAgrees<Node>();
    RejectAgrees<Release>();
    RejectAgrees<Deployment>();
    SameAgrees();
    FoldsToSome(s.nodes, NormalNode, Reject, Always);
    FoldsToUnlessRefused(s.attachments, Attachments(w), Unite);
    FoldsToUnlessRefused(s.snapshots, Snapshots(w), Overwrite);
    FoldsToSome(s.releases, Releases(w), Reject, Always);
    FoldsToUnlessRefused(s.secrets, Secrets(w), Overwrite);
    FoldsToUnlessRefused(s.ingressChecks, IngressChecks(w), Overwrite);
    forall releases
      ensures (exists t :: FoldsTo(s.current, Currents(w, releases), Same, Some(t))) <==>
        Acceptable(s.current, Currents(w, releases), Differ)
    {
      FoldsToSome(s.current, Currents(w, releases), Same, Differ);
    }
    forall releases
      ensures (exists t :: FoldsTo(s.deployments, Deployments(releases), Reject, Some(t))) <==>
        Acceptable(s.deployments, Deployments(releases), Always)
    {
      FoldsToSome(s.deployments, Deployments(releases), Reject, Always);
    }
    if RecordsOk(w, s) {
      if releases :| FoldsTo(s.releases, Releases(w), Reject, Some(releases)) && ReferencesOk(w, s, releases) {
        var nodes :| FoldsTo(s.nodes, NormalNode, Reject, Some(nodes));
        var attachments :| FoldsTo(s.attachments, Attachments(w), Unite, Some(attachments));
        var snapshots :| FoldsTo(s.snapshots, Snapshots(w), Overwrite, Some(snapshots));
        var current :| FoldsTo(s.current, Currents(w, releases), Same, Some(current));
        var deployments :| FoldsTo(s.deployments, Deployments(releases), Reject, Some(deployments));
        var secrets :| FoldsTo(s.secrets, Secrets(w), Overwrite, Some(secrets));
        var checks :| FoldsTo(s.ingressChecks, IngressChecks(w), Overwrite, Some(checks));
        assert Normalizes(w, s, State(nodes, attachments, snapshots, releases, current, deployments, secrets, checks));
      }
    }
  }

  /** A normalised attachment has exactly the node names of the attachments that
      turned out to be for its workspace and environment. */
  lemma AttachmentsUnite(w: World, s: State, t: State, key: string, name: string)
    requires Normalizes(w, s, t) && key in t.attachments
    ensures name in t.attachments[key].nodeNames <==> Contributes(w, s.attachments, key, name)
  {
    hide StrictlySorted, Folded, Trim, NamesOf, CleanList, NormalAttachment, Contributes;
    CleanAttachment(w, s, t, key);
    var f, m := Attachments(w), s.attachments;
    var keys :| Enumerates(keys, m) && Folded(keys, m, |keys|, f, Unite) == Some(t.attachments);
    forall a, b ensures NamesOf(Unite(a, b).value) == NamesOf(a) + NamesOf(b) { UniteNames(a, b); }
    FoldedUnites(keys, m, |keys|, f, Unite, NamesOf);
    CleanNames(t.attachments[key]);
    LandedNames(w, m, keys, key, name);
  }

  lemma CleanAttachment(w: World, s: State, t: State, key: string)
    requires Normalizes(w, s, t) && key in t.attachments
    ensures CleanList(t.attachments[key].nodeNames)
  {
    hide Normalizes, CleanList, ScopeKey, SecretKey;
    NormalizedIsConsistent(w, s, t);
  }

  lemma LandedNames(w: World, m: map<string, Attachment>, keys: seq<string>, key: string, name: string)
    requires Enumerates(keys, m)
    ensures (exists i ::
             Lands(keys, m, |keys|, Attachments(w), key, i) &&
             name in NamesOf(Attachments(w)(keys[i], m[keys[i]]).value)) <==>
            Contributes(w, m, key, name)
  {
    hide StrictlySorted, NamesOf, NormalAttachment, Occurs;
    var f := Attachments(w);
    forall source <- m | f(source, m[source]).Keep?
      ensures name in NamesOf(f(source, m[source]).value) <==> Occurs(m[source].nodeNames, name)
    {
      KeptNames(w, source, m[source], name);
    }
    if i :| Lands(keys, m, |keys|, f, key, i) && name in NamesOf(f(keys[i], m[keys[i]]).value) {
      assert keys[i] in keys;
    }
    if Contributes(w, m, key, name) {
      var source :| source in m && NormalAttachment(w, source, m[source]).Keep? &&
        NormalAttachment(w, source, m[source]).key == key
                    && Occurs(m[source].nodeNames, name);
      var i :| 0 <= i < |keys| && keys[i] == source;
      assert Lands(keys, m, |keys|, f, key, i);
    }
  }

  /** The names of an attachment, trimmed. */
  function NamesOf(a: Attachment): set<string> {
    set x <- a.nodeNames | !Blank(x) :: Trim(x)
  }

  lemma NamesOccur(a: Attachment, x: string)
    ensures x in NamesOf(a) <==> Occurs(a.nodeNames, x)
  {
    hide Trim;
  }

  lemma UniteNames(a: Attachment, b: Attachment)
    ensures NamesOf(Unite(a, b).value) == NamesOf(a) + NamesOf(b)
  {
    hide Trim, MergeOf, NamesOf, Occurs;
    MergeSpec(a.nodeNames, b.nodeNames);
    MergeIsClean(a.nodeNames, b.nodeNames);
    forall x ensures x in NamesOf(Unite(a, b).value) <==> x in NamesOf(a) + NamesOf(b) {
      NamesOccur(Unite(a, b).value, x);
      NamesOccur(a, x);
      NamesOccur(b, x);
      OccursInClean(MergeOf(a.nodeNames, b.nodeNames), x);
    }
  }

  lemma KeptNames(w: World, key: string, a: Attachment, x: string)
    requires NormalAttachment(w, key, a).Keep?
    ensures x in NamesOf(NormalAttachment(w, key, a).value) <==> Occurs(a.nodeNames, x)
  {
    hide Trim, MergeOf, NamesOf, Occurs, NormalScope, ScopeKey, Part;
    NamesOccur(NormalAttachment(w, key, a).value, x);
    MergeSpec([], a.nodeNames);
    MergeIsClean([], a.nodeNames);
    OccursInClean(MergeOf([], a.nodeNames), x);
    NothingOccurs(x);
  }

  lemma CleanNames(a: Attachment)
    requires CleanList(a.nodeNames)
    ensures forall x :: x in NamesOf(a) <==> x in a.nodeNames
  {
    hide Trim, StrictlySorted;
    forall x ensures x in NamesOf(a) <==> x in a.nodeNames {
      if x in a.nodeNames { assert Trim(x) == x; }
    }
  }

  // ---- the store ----

  const EMPTY_STATE := State(map[], map[], map[], map[], map[], map[], map[], map[])

  /** `StateStore`.  Reading and writing may fail; a failed write leaves the file
      as it was. */
  class StateStore {
    const world: World
    /** The schema version and state in the file, if there is one. */
    var file: Option<(int, State)>

    constructor (world: World, file: Option<(int, State)>)
      ensures this.world == world && this.file == file
    {
      this.world, this.file := world, file;
    }

    /** The file holds a state of this version that needs no change. */
    ghost predicate Settled()
      reads this
    {
      file.Some? && file.value.0 == 1 && Normal(world, file.value.1)
    }

    method Read() returns (r: Result<State>)
      ensures r.Ok? && file.None? ==> r.value == EMPTY_STATE
      ensures r.Ok? && file.Some? ==> file.value.0 in {0, 1} && Normalizes(world, file.value.1, r.value)
      ensures r.Ok? && Settled() ==> r.value == file.value.1
      ensures r.Ok? ==> Consistent(r.value) && (WorldOk(world) ==>
                                                (Normal(world, r.value) <==> PathsOk(world, r.value)))
    {
      hide Normal, Normalizes, WorldOk, PathsOk, Consistent;
      var readable: bool := *;
      if !readable { return Err("read"); }
      if file.None? {
        EmptyIsNormal(world);
        NormalIsConsistent(world, EMPTY_STATE);
        return Ok(EMPTY_STATE);
      }
      var (version, state) := file.value;
      if version != 0 && version != 1 { return Err("unsupported schema_version"); }
      r := NormalizeState(world, state);
      if r.Ok? { NormalizedIsConsistent(world, state, r.value); }
    }

    method Write(version: int, state: State) returns (ok: bool)
      modifies this
      ensures ok ==> version in {0, 1} && file.Some? && file.value.0 == 1 && Normalizes(world, state, file.value.1)
      ensures ok && WorldOk(world) ==> (Settled() <==> PathsOk(world, file.value.1))
      ensures !ok ==> file == old(file)
    {
      hide Normal, Normalizes, WorldOk, PathsOk;
      if version != 0 && version != 1 { return false; }
      var normalized := NormalizeState(world, state);
      if normalized.Err? { return false; }
      ok := *;
      if ok { file := Some((1, normalized.value)); }
    }

    /** Writing and reading back gives the normalised state, and writing that
        again changes nothing, if the canonical paths in what was written allow
        it. */
    method WriteReadWrite(version: int, state: State) returns (ghost written: State, r: Result<State>, ok: bool)
      modifies this
      ensures r.Ok? ==> Normalizes(world, state, written) && Normalizes(world, written, r.value) && Consistent(r.value)
      ensures r.Ok? && WorldOk(world) ==> (Normal(world, written) <==> PathsOk(world, written))
      ensures r.Ok? && WorldOk(world) && PathsOk(world, written) ==> r.value == written && file == Some((1, written))
    {
      hide Normal, Normalizes, WorldOk, Consistent, PathsOk;
      written := state;
      ok := Write(version, state);
      if !ok { return written, Err("write"), false; }
      written := file.value.1;
      r := Read();
      if r.Err? { return; }
      if Normal(world, written) { NormalStays(world, written); }
      ok := Write(1, r.value);
      if ok && Normal(world, written) { NormalizesOne(world, written, written, file.value.1); }
    }
  }

  lemma EmptyIsNormal(w: World)
    ensures Normal(w, EMPTY_STATE) && PathsOk(w, EMPTY_STATE)
  {
  }

  // ---- attaching and detaching nodes ----

  const NO_ATTACHMENT := Attachment(Scope("", "", ""), [])

  /** The record after `AttachNode`, for the state key of its environment. */
  function AttachedRecord(existing: Attachment, root: string, environment: string, key: string,
                          name: string): Attachment {
    var workspaceKey, keyEnvironment := Part(key, 2, 0), Part(key, 2, 1);
    Attachment(Scope(FirstNonEmpty([existing.scope.root, Trim(root), workspaceKey]), workspaceKey,
                     if Blank(environment) then DefaultEnvironmentName(keyEnvironment)
                       else DefaultEnvironmentName(environment)),
               MergeOf(existing.nodeNames, [name]))
  }

  function ExistingRecord(s: State, key: string): Attachment {
    if key in s.attachments then s.attachments[key] else NO_ATTACHMENT
  }

  /** The state after `AttachNode`, unless it fails. */
  function Attached(w: World, s: State, root: string, environment: string, nodeName: string): Option<State> {
    var name, key := Trim(nodeName), EnvironmentStateKey(w, root, environment);
    if name !in s.nodes || key.None? then None
    else Some(s.(attachments := s.attachments[key.value := AttachedRecord(ExistingRecord(s, key.value), root,
                                                                          environment, key.value, name)]))
  }

  /** The names that are not `name`, up to white space. */
  function Except(names: seq<string>, name: string): seq<string> {
    if names == [] then []
    else (if Trim(names[0]) == Trim(name) then [] else [names[0]]) + Except(names[1..], name)
  }

  /** Some of the names is `name`, up to white space. */
  ghost predicate Mentions(names: seq<string>, name: string) {
    exists n <- names :: Trim(n) == Trim(name)
  }

  lemma NobodyMentioned(names: seq<string>, name: string)
    ensures !Mentions(names[..0], name)
  {
  }

  lemma MentionsStep(names: seq<string>, name: string, i: nat)
    requires i < |names|
    ensures Mentions(names[..i + 1], name) <==> Mentions(names[..i], name) || Trim(names[i]) == Trim(name)
  {
    hide Trim;
    assert names[..i + 1] == names[..i] + [names[i]];
    if Mentions(names[..i], name) {
      var n :| n in names[..i] && Trim(n) == Trim(name);
      assert n in names[..i + 1];
    }
    assert names[i] in names[..i + 1];
  }

  /** The state after `DetachNode`, unless it fails. */
  function Detached(w: World, s: State, root: string, environment: string, nodeName: string): Option<State> {
    match EnvironmentStateKey(w, root, environment)
    case None => None
    case Some(key) =>
      if key !in s.attachments then Some(s)
      else
        var names := MergeOf([], Except(s.attachments[key].nodeNames, nodeName));
        Some(s.(attachments := if names == [] then s.attachments - {key}
                else s.attachments[key := s.attachments[key].(nodeNames := names)]))
  }

  class Solo {
    const world: World
    var state: State

    constructor (world: World, state: State)
      ensures this.world == world && this.state == state
    {
      this.world, this.state := world, state;
    }

    method AttachNode(root: string, environment: string, nodeName: string) returns (ok: bool, changed: bool)
      modifies this
      ensures ok <==> Attached(world, old(state), root, environment, nodeName).Some?
      ensures state == if ok then Attached(world, old(state), root, environment, nodeName).value else old(state)
      ensures ok ==>
        var key := EnvironmentStateKey(world, root, environment).value;
        changed == (|state.attachments[key].nodeNames| != |ExistingRecord(old(state), key).nodeNames|)
    {
      hide Trim, MergeOf, Part, FirstNonEmpty;
      var name := Trim(nodeName);
      ok, changed := false, false;
      if name !in state.nodes { return; }
      var key := EnvironmentStateKey(world, root, environment);
      if key.None? { return; }
      var attachment := if key.value in state.attachments then state.attachments[key.value] else NO_ATTACHMENT;
      var workspaceKey, keyEnvironment := Part(key.value, 2, 0), Part(key.value, 2, 1);
      var scope := Scope(FirstNonEmpty([attachment.scope.root, Trim(root), workspaceKey]), workspaceKey,
                         DefaultEnvironmentName(environment));
      if Blank(environment) { scope := scope.(environment := DefaultEnvironmentName(keyEnvironment)); }
      var before := |attachment.nodeNames|;
      var names := MergeStrings([], attachment.nodeNames + [name]);
      MergedEitherWay(attachment.nodeNames, [name]);
      attachment := Attachment(scope, names);
      state := state.(attachments := state.attachments[key.value := attachment]);
      ok, changed := true, |attachment.nodeNames| != before;
    }

    method DetachNode(root: string, environment: string, nodeName: string) returns (ok: bool, changed: bool)
      modifies this
      ensures ok <==> Detached(world, old(state), root, environment, nodeName).Some?
      ensures state == if ok then Detached(world, old(state), root, environment, nodeName).value else old(state)
      ensures !ok ==> !changed
      ensures ok ==>
        var key := EnvironmentStateKey(world, root, environment).value;
        changed == Mentions(ExistingRecord(old(state), key).nodeNames, nodeName)
    {
      hide Trim, MergeOf, Except;
      ok, changed := false, false;
      var key := EnvironmentStateKey(world, root, environment);
      if key.None? { return; }
      if key.value !in state.attachments { return true, false; }
      var attachment := state.attachments[key.value];
      var filtered;
      filtered, changed := WithoutName(attachment.nodeNames, nodeName);
      var names := MergeStrings([], filtered);
      ok := true;
      if |names| == 0 {
        state := state.(attachments := state.attachments - {key.value});
      } else {
        state := state.(attachments := state.attachments[key.value := attachment.(nodeNames := names)]);
      }
    }

    method WithoutName(names: seq<string>, nodeName: string) returns (filtered: seq<string>, changed: bool)
      ensures filtered == Except(names, nodeName)
      ensures changed <==> Mentions(names, nodeName)
    {
      hide Trim, Mentions;
      filtered, changed := [], false;
      assert !Mentions(names[..0], nodeName) by { NobodyMentioned(names, nodeName); }
      for i := 0 to |names|
        invariant filtered + Except(names[i..], nodeName) == Except(names, nodeName)
        invariant changed <==> Mentions(names[..i], nodeName)
      {
        assert names[i..][1..] == names[i + 1..];
        MentionsStep(names, nodeName, i);
        if Trim(names[i]) == Trim(nodeName) {
          changed := true;
          continue;
        }
        filtered := filtered + [names[i]];
      }
      assert names[..|names|] == names;
    }

    /** Exactly the keys of the attachments that list the node, sorted. */
    method AttachmentKeysForNode(nodeName: string) returns (keys: seq<string>)
      ensures StrictlySorted(keys)
      ensures forall key :: key in keys <==>
        key in state.attachments &&
        Trim(nodeName) in state.attachments[key].nodeNames
    {
      hide Trim, StrictlySorted, SortStrings;
      keys := [];
      var name := Trim(nodeName);
      var left := state.attachments.Keys;
      while left != {}
        invariant left <= state.attachments.Keys && Sorting.Distinct(keys)
        invariant forall key :: key in keys <==>
          key in state.attachments && key !in left &&
          name in state.attachments[key].nodeNames
        decreases left
      {
        var key :| key in left;
        left := left - {key};
        if name in state.attachments[key].nodeNames { keys := keys + [key]; }
      }
      SortStringsSpec(keys);
      keys := SortStrings(keys);
    }
  }

  lemma MergedEitherWay(a: seq<string>, b: seq<string>)
    ensures MergeOf([], a + b) == MergeOf(a, b)
  {
    assert [] + (a + b) == a + b;
  }

  /** A scope that normalisation leaves alone. */
  ghost predicate ScopeOk(w: World, s: Scope) {
    !Blank(s.root) && Trimmed(s.root) && w.canon(s.root) == Some(s.key) && s.environment != "" && Trimmed(s.environment)
  }

  /** In a normal state, a record is filed under its own scope. */
  lemma NormalAttachmentIs(w: World, s: State, key: string)
    requires Normal(w, s) && key in s.attachments
    ensures NormalScope(w, key, Part(key, 2, 1), s.attachments[key].scope) == Some(s.attachments[key].scope)
    ensures key == ScopeKey(s.attachments[key].scope) && CleanList(s.attachments[key].nodeNames)
    ensures WorldOk(w) ==> ScopeOk(w, s.attachments[key].scope)
  {
    hide Trim, Part, MergeOf, NormalScope, ScopeKey, CleanList, WorldOk, ScopeMade, RootOk, NormalNode;
    var a := s.attachments[key];
    assert Attachments(w)(key, a) == Keep(key, a);
    MergeTwice(a.nodeNames);
    if WorldOk(w) {
      NormalScopeMade(w, key, Part(key, 2, 1), a.scope);
      ScopeStays(w, key, Part(key, 2, 1), a.scope);
      ScopeIsOk(w, a.scope);
    }
  }

  lemma ScopeIsOk(w: World, s: Scope)
    requires ScopeMade(w, s) && RootOk(w, s)
    ensures ScopeOk(w, s)
  {
    hide Trim;
  }

  /** The root that `AttachNode` records. */
  function RecordedRoot(s: State, root: string, key: string): string {
    if key in s.attachments then s.attachments[key].scope.root
    else if !Blank(root) then Trim(root)
    else Part(key, 2, 0)
  }

  /** The key spells the workspace and environment that are recorded under it, and
      the recorded root is of that workspace. */
  ghost predicate Files(w: World, s: State, root: string, environment: string, key: string) {
    var head, tail := Part(key, 2, 0), Part(key, 2, 1);
    && head != "" && head + "\n" + tail == key
    && (Blank(environment) || tail == DefaultEnvironmentName(environment))
    && w.canon(RecordedRoot(s, root, key)) == Some(head)
  }

  /** What this asks of an ordinary environment, whose canonical path is one line:
      that the path is trimmed, that the record there is of the same workspace, and
      that the path is spelled as itself if it has to serve as the root.  With a
      path of several lines, a named environment is never filed right. */
  lemma FilesOrdinarily(w: World, s: State, root: string, environment: string)
    requires WorldOk(w) && Normal(w, s) && CanonicalKey(w, root).Some?
    ensures
      var path, key := CanonicalKey(w, root).value, EnvironmentStateKey(w, root, environment).value;
      && ('\n' !in path ==>
            (Files(w, s, root, environment, key) <==>
             && Trimmed(path)
             && (if key in s.attachments then s.attachments[key].scope.key == path else Blank(root) ==>
                 PathOk(w, path))))
      && ('\n' in path && !Blank(environment) ==> !Files(w, s, root, environment, key))
  {
    hide Trim, Part, Normal;
    var path, name := CanonicalKey(w, root).value, DefaultEnvironmentName(environment);
    var key := path + "\n" + name;
    EnvironmentIsTrimmed(environment);
    TrimTrims(root);
    EmptyIsBlank();
    if '\n' !in path {
      KeyOfParts(path, name);
      if key in s.attachments { NormalAttachmentIs(w, s, key); }
      if Trim(path) + "\n" + name == key { SplitAlike(path, name, Trim(path), name); }
    } else if !Blank(environment) {
      KeyParts(key);
      TrimWithin(key[..NewlineIn(key)]);
      if Files(w, s, root, environment, key) { SplitAlike(Part(key, 2, 0), name, path, name); }
    }
  }

  /** The record that `AttachNode` files is as normalisation would have it exactly
      when it files it right. */
  lemma AttachedScope(w: World, s: State, root: string, environment: string, key: string, name: string)
    requires WorldOk(w) && Normal(w, s) && EnvironmentStateKey(w, root, environment) == Some(key)
    ensures
      var scope := AttachedRecord(ExistingRecord(s, key), root, environment, key, name).scope;
      && (Files(w, s, root, environment, key) <==>
          NormalScope(w, key, Part(key, 2, 1), scope) == Some(scope) && ScopeKey(scope) == key)
      && (key in s.attachments ==> (Files(w, s, root, environment, key) <==> scope == s.attachments[key].scope))
  {
    hide Trim, Part, FirstNonEmpty, MergeOf, Normal, DefaultEnvironmentName;
    var scope := AttachedRecord(ExistingRecord(s, key), root, environment, key, name).scope;
    var head, tail := Part(key, 2, 0), Part(key, 2, 1);
    RecordedRootIs(w, s, root, key);
    RecordedEnvironment(w, root, environment, key);
    ScopeOfThree(scope.root, scope.key, head);
    PartIsTrimmed(key, 2, 0);
    FirstOfTrimmed(scope.environment, [tail]);
    assert [scope.environment, tail] == [scope.environment] + [tail];
    EnvironmentIsTrimmed(scope.environment);
    TrimmedDefault(scope.environment);
    if key in s.attachments {
      NormalAttachmentIs(w, s, key);
      var was := s.attachments[key].scope;
      if head == was.key && ScopeKey(scope) == key { SplitAlike2(head, scope.environment, was.environment); }
    }
  }

  lemma SplitAlike2(a: string, b: string, d: string)
    requires a + "\n" + b == a + "\n" + d
    ensures b == d
  {
    assert (a + "\n" + b)[|a| + 1..] == b && (a + "\n" + d)[|a| + 1..] == d;
  }

  lemma TrimmedDefault(name: string)
    requires name != "" && Trimmed(name)
    ensures DefaultEnvironmentName(name) == name
  {
    hide Trim;
  }

  lemma RecordedRootIs(w: World, s: State, root: string, key: string)
    requires WorldOk(w) && Normal(w, s)
    ensures
      var r := FirstNonEmpty([ExistingRecord(s, key).scope.root, Trim(root), Part(key, 2, 0)]);
      r == RecordedRoot(s, root, key) && Trimmed(r) && (r == "" ==> Part(key, 2, 0) == "")
  {
    hide Trim, Part, FirstNonEmpty, Normal, NormalScope, ScopeKey;
    ScopeOfThree(ExistingRecord(s, key).scope.root, Trim(root), Part(key, 2, 0));
    PartIsTrimmed(key, 2, 0);
    TrimTrims(root);
    EmptyIsBlank();
    if key in s.attachments { NormalAttachmentIs(w, s, key); }
  }

  /** The environment that `AttachNode` records is that of the key, unless the key
      does not spell it. */
  lemma RecordedEnvironment(w: World, root: string, environment: string, key: string)
    requires EnvironmentStateKey(w, root, environment) == Some(key)
    ensures
      var head, tail := Part(key, 2, 0), Part(key, 2, 1);
      var name := if Blank(environment) then DefaultEnvironmentName(tail) else DefaultEnvironmentName(environment);
      && name != "" && Trimmed(name)
      && (head + "\n" + name == key <==>
          head + "\n" + tail == key && (Blank(environment) || tail == DefaultEnvironmentName(environment)))
  {
    hide Trim, Part, DefaultEnvironmentName, NewlineIn;
    var path, name := CanonicalKey(w, root).value, DefaultEnvironmentName(environment);
    var head, tail := Part(key, 2, 0), Part(key, 2, 1);
    EnvironmentIsTrimmed(environment);
    assert key[|path|] == '\n';
    KeyParts(key);
    TailIsNotBlank(path, name, key, NewlineIn(key));
    PartIsTrimmed(key, 2, 1);
    TrimmedDefault(tail);
    if !Blank(environment) && head + "\n" + name == key { KeySpells(key, head, name); }
  }

  lemma KeySpells(key: string, head: string, name: string)
    requires '\n' in key && head == Part(key, 2, 0) && head + "\n" + name == key && Trimmed(name)
    ensures Part(key, 2, 1) == name
  {
    hide Trim, Part;
    KeyParts(key);
    var i := NewlineIn(key);
    TrimWithin(key[..i]);
    assert key[..i] + "\n" + key[i + 1..] == key;
    SplitAlike(key[..i], key[i + 1..], head, name);
  }

  lemma TailIsNotBlank(path: string, name: string, key: string, i: nat)
    requires key == path + "\n" + name && name != "" && Trimmed(name)
    requires i == NewlineIn(key) && i < |key|
    ensures !Blank(key[i + 1..])
  {
    hide Trim, IsSpace;
    assert key[|path|] == '\n';
    assert forall k :: 0 <= k < i ==> key[k] == key[..i][k] && key[k] in key[..i];
    TrimmedEnds(name);
    assert key[i + 1..][|path| - i] == name[0];
    NotBlank(key[i + 1..], |path| - i);
  }

  /** Attaching keeps the state normal exactly when the record is filed right; the
      environment's nodes are the previous ones and the new one. */
  lemma AttachKeepsNormal(w: World, s: State, root: string, environment: string, nodeName: string)
    requires WorldOk(w) && Normal(w, s) && Attached(w, s, root, environment, nodeName).Some?
    ensures
      var t := Attached(w, s, root, environment, nodeName).value;
      var key := EnvironmentStateKey(w, root, environment).value;
      && (Normal(w, t) <==> Files(w, s, root, environment, key))
      && forall x :: x in t.attachments[key].nodeNames <==> x in ExistingRecord(s, key).nodeNames || x == Trim(nodeName)
  {
    hide Trim, Part, FirstNonEmpty, WorldOk, MergeOf, NormalScope, ScopeKey, CleanList, AttachedRecord, NormalNode,
         Files;
    var t := Attached(w, s, root, environment, nodeName).value;
    var key := EnvironmentStateKey(w, root, environment).value;
    var existing, name := ExistingRecord(s, key), Trim(nodeName);
    if key in s.attachments { NormalAttachmentIs(w, s, key); } else { EmptyIsClean(); }
    assert NormalNode(name, s.nodes[name]) == Keep(name, s.nodes[name]);
    NodeNameIsNotBlank(nodeName, s.nodes[name]);
    AttachedNames(existing, root, environment, key, nodeName);
    AttachedScope(w, s, root, environment, key, name);
    var record := AttachedRecord(existing, root, environment, key, name);
    MergeFixes(record.nodeNames);
    assert Attachments(w)(key, record) == Keep(key, record) <==> Files(w, s, root, environment, key);
    assert t.attachments[key] == record;
  }

  lemma EmptyIsClean()
    ensures CleanList([])
  {
  }

  lemma NodeNameIsNotBlank(nodeName: string, node: Node)
    requires NormalNode(Trim(nodeName), node).Keep?
    ensures Trim(nodeName) != "" && Trimmed(Trim(nodeName))
  {
    hide Trim, NodeLabels;
    EmptyIsBlank();
    TrimTrims(nodeName);
  }

  lemma AttachedNames(existing: Attachment, root: string, environment: string, key: string, nodeName: string)
    requires CleanList(existing.nodeNames) && Trim(nodeName) != "" && Trimmed(Trim(nodeName))
    ensures
      var record := AttachedRecord(existing, root, environment, key, Trim(nodeName));
      && CleanList(record.nodeNames)
      && forall x :: x in record.nodeNames <==> x in existing.nodeNames || x == Trim(nodeName)
  {
    hide Trim, Part, FirstNonEmpty, MergeOf, StrictlySorted;
    var name := Trim(nodeName);
    MergeSpec(existing.nodeNames, [name]);
    MergeIsClean(existing.nodeNames, [name]);
    forall x ensures Occurs(existing.nodeNames, x) <==> x in existing.nodeNames {
      OccursInClean(existing.nodeNames, x);
    }
    forall x ensures Occurs([name], x) <==> x == name {
      if x == name { assert name in [name]; }
    }
  }

  lemma {:induction false} ExceptSpec(names: seq<string>, name: string)
    requires forall x <- names :: Trimmed(x)
    ensures forall x :: x in Except(names, name) <==> x in names && x != Trim(name)
    ensures StrictlySorted(names) ==> StrictlySorted(Except(names, name))
  {
    hide Trim, Less;
    if names != [] {
      assert names[0] in names;
      assert forall x <- names[1..] :: x in names;
      ExceptSpec(names[1..], name);
      assert names == [names[0]] + names[1..];
      if StrictlySorted(names) {
        var rest := Except(names[1..], name);
        forall x <- rest ensures Less(names[0], x) {
          var j :| 0 <= j < |names[1..]| && names[1..][j] == x;
          assert names[j + 1] == x;
        }
      }
    }
  }

  /** Detaching keeps the state normal; the node is gone and the others stay. */
  lemma DetachKeepsNormal(w: World, s: State, root: string, environment: string, nodeName: string)
    requires Normal(w, s) && Detached(w, s, root, environment, nodeName).Some?
    ensures
      var t := Detached(w, s, root, environment, nodeName).value;
      var key := EnvironmentStateKey(w, root, environment).value;
      && Normal(w, t)
      && forall x :: x in ExistingRecord(t, key).nodeNames <==>
      x in ExistingRecord(s, key).nodeNames && x != Trim(nodeName)
  {
    hide Trim, Part, FirstNonEmpty, MergeOf, NormalScope, ScopeKey, CleanList, Except, WorldOk, ScopeOk;
    var t := Detached(w, s, root, environment, nodeName).value;
    var key := EnvironmentStateKey(w, root, environment).value;
    if key in s.attachments {
      NormalAttachmentIs(w, s, key);
      var a := s.attachments[key];
      DetachedNames(a.nodeNames, nodeName);
      var names := MergeOf([], Except(a.nodeNames, nodeName));
      HasMember(names);
      var record := a.(nodeNames := names);
      MergeFixes(names);
      assert Attachments(w)(key, record) == Keep(key, record);
    }
  }

  lemma DetachedNames(names: seq<string>, nodeName: string)
    requires CleanList(names)
    ensures MergeOf([], Except(names, nodeName)) == Except(names, nodeName) && CleanList(Except(names, nodeName))
    ensures forall x :: x in Except(names, nodeName) <==> x in names && x != Trim(nodeName)
  {
    hide Trim, MergeOf, StrictlySorted, Except;
    ExceptSpec(names, nodeName);
    MergeFixes(Except(names, nodeName));
  }

  /** Detaching undoes attaching exactly when there was no record, or there was one
      with nodes, not with this one, and attaching filed it right. */
  lemma DetachUndoesAttach(w: World, s: State, root: string, environment: string, nodeName: string)
    requires WorldOk(w) && Normal(w, s) && Attached(w, s, root, environment, nodeName).Some?
    ensures
      var key := EnvironmentStateKey(w, root, environment).value;
      var t := Attached(w, s, root, environment, nodeName).value;
      Detached(w, t, root, environment, nodeName) == Some(s) <==>
      || key !in s.attachments
      || (Trim(nodeName) !in s.attachments[key].nodeNames && s.attachments[key].nodeNames != [] &&
          Files(w, s, root, environment, key))
  {
    hide Trim, Part, FirstNonEmpty, WorldOk, MergeOf, NormalScope, ScopeOk, ScopeKey, AttachedRecord, Except,
         StrictlySorted, Normal, Files;
    var key := EnvironmentStateKey(w, root, environment).value;
    var name, existing := Trim(nodeName), ExistingRecord(s, key);
    var t := Attached(w, s, root, environment, nodeName).value;
    var record := AttachedRecord(existing, root, environment, key, name);
    if key in s.attachments { NormalAttachmentIs(w, s, key); } else { EmptyIsClean(); }
    NormalNodeName(w, s, nodeName);
    AttachedNames(existing, root, environment, key, nodeName);
    AttachedScope(w, s, root, environment, key, name);
    DetachedNames(record.nodeNames, nodeName);
    var left := Except(record.nodeNames, nodeName);
    if key in s.attachments {
      if name !in existing.nodeNames {
        StrictlySortedUnique(left, existing.nodeNames);
        assert t.attachments[key := existing] == s.attachments;
      } else {
        assert name !in left;
      }
      if existing.nodeNames == [] { assert key !in t.attachments - {key}; }
    } else {
      HasMember(left);
      assert t.attachments - {key} == s.attachments;
    }
  }

  lemma NormalNodeName(w: World, s: State, nodeName: string)
    requires Normal(w, s) && Trim(nodeName) in s.nodes
    ensures Trim(nodeName) != "" && Trimmed(Trim(nodeName))
  {
    hide Trim, NormalNode;
    assert NormalNode(Trim(nodeName), s.nodes[Trim(nodeName)]) == Keep(Trim(nodeName), s.nodes[Trim(nodeName)]);
    NodeNameIsNotBlank(nodeName, s.nodes[Trim(nodeName)]);
  }
}
