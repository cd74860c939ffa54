/** Releases in the solo state: recording the one that was just made, and listing
    those of an environment. */
module SoloReleases {
  import opened Text
  import opened Sorting
  import opened RecordMaps
  import opened SoloStates
  import opened SoloOperations

  // ---- recording a release ----

  /** The release as `SaveRelease` files it under its environment's key. */
  function Filed(release: Release, key: string): Release {
    release.(environmentID := key,
             snapshot := release.snapshot.(
               scope := Scope(release.snapshot.scope.root, Part(key, 2, 0),
                              DefaultEnvironmentName(release.snapshot.scope.environment)),
               revision := release.revision))
  }

  /** The key that `SaveRelease` files the release under, if it accepts it. */
  function SaveKey(w: World, release: Release): Option<string> {
    if Blank(release.id) || Blank(release.revision) || Blank(release.snapshot.scope.root) ||
      Blank(release.snapshot.scope.environment) then None
    else EnvironmentStateKey(w, release.snapshot.scope.root, release.snapshot.scope.environment)
  }

  function Saved(s: State, release: Release, key: string): State {
    s.(releases := s.releases[release.id := Filed(release, key)],
       current := s.current[key := release.id],
       snapshots := s.snapshots[key := Filed(release, key).snapshot])
  }

  method SaveRelease(solo: Solo, release: Release) returns (key: Option<string>)
    modifies solo
    ensures key == SaveKey(solo.world, release)
    ensures solo.state == if key.Some? then Saved(old(solo.state), release, key.value) else old(solo.state)
  {
    hide Trim, Part, EnvironmentStateKey;
    if Blank(release.id) || Blank(release.revision) { return None; }
    if Blank(release.snapshot.scope.root) || Blank(release.snapshot.scope.environment) { return None; }
    key := EnvironmentStateKey(solo.world, release.snapshot.scope.root, release.snapshot.scope.environment);
    if key.None? { return; }
    var workspaceKey := Part(key.value, 2, 0);
    var scope := Scope(release.snapshot.scope.root, workspaceKey,
                       DefaultEnvironmentName(release.snapshot.scope.environment));
    var snapshot := release.snapshot.(scope := scope, revision := release.revision);
    var saved := release.(environmentID := key.value, snapshot := snapshot);
    solo.state := solo.state.(releases := solo.state.releases[release.id := saved]);
    solo.state := solo.state.(current := solo.state.current[key.value := release.id]);
    solo.state := solo.state.(snapshots := solo.state.snapshots[key.value := snapshot]);
  }

  /** A release spelled as normalisation would have it. */
  predicate Tidy(w: World, release: Release) {
    && Trimmed(release.id) && Trimmed(release.revision) && Trimmed(release.createdAt) &&
    w.instant(release.createdAt).Some?
    && Trimmed(release.snapshot.scope.root)
  }

  /** The filed scope is as normalisation would have it exactly when the canonical
      path is one line and trimmed. */
  lemma FiledScope(w: World, release: Release, key: string)
    requires WorldOk(w) && SaveKey(w, release) == Some(key)
    ensures
      var path, scope := CanonicalKey(w, release.snapshot.scope.root).value, Filed(release, key).snapshot.scope;
      && (NormalScope(w, key, Part(key, 2, 1), scope) == Some(scope) <==>
          Trimmed(release.snapshot.scope.root) && '\n' !in path && Trimmed(path))
      && (NormalScope(w, key, Part(key, 2, 1), scope) == Some(scope) ==> ScopeKey(scope) == key)
  {
    hide Trim, Part, FirstNonEmpty, DefaultEnvironmentName;
    var root, name := release.snapshot.scope.root, DefaultEnvironmentName(release.snapshot.scope.environment);
    var path, scope := CanonicalKey(w, root).value, Filed(release, key).snapshot.scope;
    EnvironmentIsTrimmed(release.snapshot.scope.environment);
    TrimTrims(root);
    ScopeOfThree(scope.root, scope.key, Part(key, 2, 0));
    FirstOfTrimmed(scope.environment, [Part(key, 2, 1)]);
    assert [scope.environment, Part(key, 2, 1)] == [scope.environment] + [Part(key, 2, 1)];
    HeadIsPath(path, name);
  }

  lemma HeadIsPath(path: string, name: string)
    ensures Part(path + "\n" + name, 2, 0) == path <==> '\n' !in path && Trimmed(path)
  {
    hide Trim, Part;
    var key := path + "\n" + name;
    if '\n' !in path {
      KeyOfParts(path, name);
    } else {
      assert key[|path|] == '\n';
      KeyParts(key);
      TrimWithin(key[..NewlineIn(key)]);
    }
  }

  lemma FiledIsFixed(w: World, release: Release, key: string)
    requires WorldOk(w) && SaveKey(w, release) == Some(key)
    ensures
      var path := CanonicalKey(w, release.snapshot.scope.root).value;
      NormalRelease(w, release.id, Filed(release, key)) == Keep(release.id, Filed(release, key)) <==>
      Tidy(w, release) && '\n' !in path && Trimmed(path)
    ensures NormalRelease(w, release.id, Filed(release, key)) == Keep(release.id, Filed(release, key)) ==>
      NormalSnapshot(w, key, Filed(release, key).snapshot) == Keep(key, Filed(release, key).snapshot)
  {
    hide Trim, Part, WorldOk, ScopeKey, NormalScope, Filed;
    var filed := Filed(release, key);
    var path := CanonicalKey(w, release.snapshot.scope.root).value;
    FiledIs(release, key);
    FiledScope(w, release, key);
    FirstOfTwo(release.id, release.id);
    SavedKey(w, release, key);
    EnvironmentIsTrimmed(release.snapshot.scope.environment);
    ScopeOfKey(w, Trim(key), Part(Trim(key), 2, 1), key, Part(key, 2, 1), filed.snapshot.scope);
  }

  lemma FiledIs(release: Release, key: string)
    ensures
      var filed := Filed(release, key);
      && filed == release.(environmentID := key, snapshot := filed.snapshot)
      && filed.snapshot.revision == release.revision && filed.snapshot.scope.root == release.snapshot.scope.root
      && filed.snapshot.scope.environment == DefaultEnvironmentName(release.snapshot.scope.environment)
  {
  }

  lemma SavedKey(w: World, release: Release, key: string)
    requires SaveKey(w, release) == Some(key)
    ensures !Blank(key) && !Blank(release.id) && !Blank(release.revision) && !Blank(release.snapshot.scope.root)
  {
    hide Trim;
    var name := DefaultEnvironmentName(release.snapshot.scope.environment);
    EnvironmentIsTrimmed(release.snapshot.scope.environment);
    ScopeKeyIsNotBlank(Scope("", CanonicalKey(w, release.snapshot.scope.root).value, name));
  }

  /** A scope with a root and an environment does not look at the key. */
  lemma ScopeOfKey(w: World, key: string, name: string, again: string, nameAgain: string, s: Scope)
    requires !Blank(s.root) && !Blank(s.environment)
    ensures NormalScope(w, key, name, s) == NormalScope(w, again, nameAgain, s)
  {
    hide Trim, Part, FirstNonEmpty;
    ScopeOfThree(s.root, s.key, Part(key, 2, 0));
    ScopeOfThree(s.root, s.key, Part(again, 2, 0));
    FirstOfTwo(s.environment, name);
    FirstOfTwo(s.environment, nameAgain);
  }

  lemma CurrentIsFixed(w: World, release: Release, key: string, releases: map<string, Release>)
    requires WorldOk(w) && SaveKey(w, release) == Some(key) && Trimmed(release.id)
    requires '\n' !in CanonicalKey(w, release.snapshot.scope.root).value
    requires release.id in releases && releases[release.id] == Filed(release, key)
    ensures NormalCurrent(w, releases, key, release.id) == Keep(key, release.id) <==>
            CanonicalKey(w, CanonicalKey(w, release.snapshot.scope.root).value) ==
            CanonicalKey(w, release.snapshot.scope.root)
  {
    hide Trim, Part, Reread;
    EnvironmentIsTrimmed(release.snapshot.scope.environment);
    RereadExactly(w, CanonicalKey(w, release.snapshot.scope.root).value,
                  DefaultEnvironmentName(release.snapshot.scope.environment));
    SavedKey(w, release, key);
    CurrentStays(w, releases, key, release.id);
  }

  /** Nothing but this environment refers to the release identifier. */
  ghost predicate OnlyHere(s: State, id: string, key: string) {
    && (forall k <- s.current :: s.current[k] == id ==> k == key)
    && (forall d <- s.deployments :: s.deployments[d].releaseID == id ==> s.deployments[d].environmentID == key)
  }

  lemma OtherCurrents(w: World, s: State, releases: map<string, Release>, k: string, id: string, filed: Release)
    requires k in s.current && NormalCurrent(w, s.releases, k, s.current[k]) == Keep(k, s.current[k])
    requires releases == s.releases[id := filed]
    ensures NormalCurrent(w, releases, k, s.current[k]) == Keep(k, s.current[k]) <==>
            (s.current[k] == id ==> filed.environmentID == k)
  {
    hide Trim, Part, NormalScope, ScopeKey;
  }

  lemma OtherDeployments(s: State, releases: map<string, Release>, d: string, id: string, filed: Release)
    requires d in s.deployments && NormalDeployment(s.releases, d, s.deployments[d]) == Keep(d, s.deployments[d])
    requires releases == s.releases[id := filed]
    ensures NormalDeployment(releases, d, s.deployments[d]) == Keep(d, s.deployments[d]) <==>
            (s.deployments[d].releaseID == id ==> filed.environmentID == s.deployments[d].environmentID)
  {
    hide Trim, FirstNonEmpty;
  }

  /** Saving a release keeps the state normal exactly when the release is tidy, its
      canonical path is one line and spelled as itself, and no other environment
      refers to its identifier. */
  lemma SaveKeepsNormal(w: World, s: State, release: Release, key: string)
    requires WorldOk(w) && Normal(w, s) && SaveKey(w, release) == Some(key)
    ensures Normal(w, Saved(s, release, key)) <==>
            && Tidy(w, release) && CanonOk(w, CanonicalKey(w, release.snapshot.scope.root).value)
            && OnlyHere(s, release.id, key)
  {
    hide Trim, Part, WorldOk, ScopeKey, FirstNonEmpty, NormalScope, SaveKey, NormalNode,
         NormalAttachment, NormalSnapshot, NormalRelease, NormalCurrent, NormalDeployment, NormalSecret,
         NormalIngressCheck, Tidy;
    var filed, t := Filed(release, key), Saved(s, release, key);
    FiledIsFixed(w, release, key);
    if NormalRelease(w, release.id, filed) == Keep(release.id, filed) {
      SavedReferences(w, s, release, key);
      SavedParts(w, s, release, key);
    } else {
      assert Releases(w)(release.id, t.releases[release.id]) != Keep(release.id, t.releases[release.id]);
    }
  }

  lemma SavedReferences(w: World, s: State, release: Release, key: string)
    requires WorldOk(w) && Normal(w, s) && SaveKey(w, release) == Some(key) && Tidy(w, release)
    requires '\n' !in CanonicalKey(w, release.snapshot.scope.root).value &&
      Trimmed(CanonicalKey(w, release.snapshot.scope.root).value)
    ensures
      var t := Saved(s, release, key);
      Fixed(t.current, Currents(w, t.releases)) && Fixed(t.deployments, Deployments(t.releases)) <==>
      CanonOk(w, CanonicalKey(w, release.snapshot.scope.root).value) && OnlyHere(s, release.id, key)
  {
    hide Trim, Part, WorldOk, ScopeKey, FirstNonEmpty, NormalScope, NormalNode,
         NormalAttachment, NormalSnapshot, NormalRelease, NormalCurrent, NormalDeployment, NormalSecret,
         NormalIngressCheck;
    var filed, t := Filed(release, key), Saved(s, release, key);
    CurrentIsFixed(w, release, key, t.releases);
    forall k <- s.current
      ensures Currents(w, t.releases)(k, s.current[k]) == Keep(k, s.current[k]) <==>
        (s.current[k] == release.id ==> k == key)
    {
      assert Currents(w, s.releases)(k, s.current[k]) == Keep(k, s.current[k]);
      OtherCurrents(w, s, t.releases, k, release.id, filed);
    }
    forall d <- s.deployments ensures Deployments(t.releases)(d, s.deployments[d]) == Keep(d, s.deployments[d]) <==>
                                      (s.deployments[d].releaseID == release.id ==>
                                       s.deployments[d].environmentID == key) {
      assert Deployments(s.releases)(d, s.deployments[d]) == Keep(d, s.deployments[d]);
      OtherDeployments(s, t.releases, d, release.id, filed);
    }
    assert Currents(w, t.releases)(key, t.current[key]) == Keep(key, t.current[key]) <==>
           CanonOk(w, CanonicalKey(w, release.snapshot.scope.root).value);
    if Fixed(t.current, Currents(w, t.releases)) && Fixed(t.deployments, Deployments(t.releases)) {
      forall k <- s.current ensures s.current[k] == release.id ==> k == key {
        if k != key { assert t.current[k] == s.current[k]; }
      }
    }
  }

  lemma SavedParts(w: World, s: State, release: Release, key: string)
    requires Normal(w, s)
    requires NormalRelease(w, release.id, Filed(release, key)) == Keep(release.id, Filed(release, key))
    requires NormalSnapshot(w, key, Filed(release, key).snapshot) == Keep(key, Filed(release, key).snapshot)
    ensures Fixed(Saved(s, release, key).releases, Releases(w)) && Fixed(Saved(s, release, key).snapshots, Snapshots(w))
  {
    hide Trim, Part, ScopeKey, FirstNonEmpty, NormalScope, NormalSnapshot, NormalRelease, Filed;
    var t := Saved(s, release, key);
    forall k <- t.releases ensures Releases(w)(k, t.releases[k]) == Keep(k, t.releases[k]) {
      if k != release.id { assert Releases(w)(k, s.releases[k]) == Keep(k, s.releases[k]); }
    }
    forall k <- t.snapshots ensures Snapshots(w)(k, t.snapshots[k]) == Keep(k, t.snapshots[k]) {
      if k != key { assert Snapshots(w)(k, s.snapshots[k]) == Keep(k, s.snapshots[k]); }
    }
  }

  // ---- what the next write makes of it ----

  predicate Dated(w: World, r: Release) {
    w.instant(Trim(r.createdAt)).Some?
  }

  /** What the next write asks of a saved release: a readable time, a key that can be
      worked out again, an identifier that no other record has once it is trimmed,
      and that no other environment refers to. */
  ghost predicate Writable(w: World, s: State, release: Release, key: string) {
    && Dated(w, release) && Reread(w, key) == Some(key)
    && (Trimmed(release.id) || Trim(release.id) !in s.releases)
    && OnlyHere(s, release.id, key)
  }

  /** A filed release is refused for its time only, and otherwise goes under its own
      identifier to this environment. */
  lemma FiledNormal(w: World, release: Release, key: string)
    requires SaveKey(w, release) == Some(key)
    ensures
      var o := NormalRelease(w, release.id, Filed(release, key));
      && (if Dated(w, release) then o.Keep? else o.Refuse?)
      && (o.Keep? ==> o.key == Trim(release.id) && o.value.environmentID == key)
    ensures NormalSnapshot(w, key, Filed(release, key).snapshot).Keep?
  {
    hide Trim, Part, FirstNonEmpty, Filed, NormalScope;
    var scope := Filed(release, key).snapshot.scope;
    FiledIs(release, key);
    SavedKey(w, release, key);
    FirstOfTwo(release.id, release.id);
    TrimTrims(key);
    FiledKey(w, release, key, Trim(key), Part(Trim(key), 2, 1));
    FiledKey(w, release, key, key, Part(key, 2, 1));
  }

  lemma FiledKey(w: World, release: Release, key: string, asked: string, name: string)
    requires SaveKey(w, release) == Some(key)
    ensures
      var o := NormalScope(w, asked, name, Filed(release, key).snapshot.scope);
      o.Some? && ScopeKey(o.value) == key
  {
    hide Trim, Part, FirstNonEmpty;
    var scope := Filed(release, key).snapshot.scope;
    EnvironmentIsTrimmed(release.snapshot.scope.environment);
    ScopeOfThree(scope.root, scope.key, Part(asked, 2, 0));
    FirstOfTwo(scope.environment, name);
    TrimTrims(scope.root);
  }

  /** The releases that normalisation makes of a saved state. */
  ghost predicate SavedReleases(s: State, release: Release, key: string, releases: map<string, Release>) {
    && Trim(release.id) in releases && releases[Trim(release.id)].environmentID == key
    && (forall id <- s.releases :: id != release.id ==> id in releases && releases[id] == s.releases[id])
  }

  lemma SavedFolds(w: World, s: State, release: Release, key: string, releases: map<string, Release>)
    requires Normal(w, s) && SaveKey(w, release) == Some(key)
    requires FoldsTo(Saved(s, release, key).releases, Releases(w), Reject, Some(releases))
    ensures Dated(w, release) && SavedReleases(s, release, key, releases)
  {
    hide FoldsTo, Filed, NormalRelease, Trim;
    var m := Saved(s, release, key).releases;
    RejectAgrees<Release>();
    FoldsToKeepsAll(m, Releases(w), Reject, releases);
    FiledNormal(w, release, key);
    assert !Releases(w)(release.id, m[release.id]).Refuse?;
    forall id <- s.releases | id != release.id ensures id in releases && releases[id] == s.releases[id] {
      assert Releases(w)(id, m[id]) == Keep(id, m[id]);
    }
  }

  lemma NothingMeets<T(!new)>(m: map<string, T>, f: (string, T) -> Outcome<T>, clash: (T, T) -> bool)
    requires Fixed(m, f)
    ensures Acceptable(m, f, clash)
  {
  }

  lemma SavedRecords(w: World, s: State, release: Release, key: string)
    requires Normal(w, s) && SaveKey(w, release) == Some(key)
    ensures RecordsOk(w, Saved(s, release, key)) <==>
            Dated(w, release) && (Trimmed(release.id) || Trim(release.id) !in s.releases)
  {
    hide Filed, NormalRelease, NormalSnapshot, NormalAttachment, NormalSecret, NormalIngressCheck, NormalNode, Trim;
    var t := Saved(s, release, key);
    FiledNormal(w, release, key);
    NothingMeets(s.nodes, NormalNode, Always);
    forall k <- t.snapshots ensures !Snapshots(w)(k, t.snapshots[k]).Refuse? {
      if k != key { assert Snapshots(w)(k, s.snapshots[k]) == Keep(k, s.snapshots[k]); }
    }
    forall id <- s.releases | id != release.id ensures Releases(w)(id, t.releases[id]) == Keep(id, s.releases[id]) { }
    SavedReleasesMeet(w, s, release, key);
  }

  lemma SavedReleasesMeet(w: World, s: State, release: Release, key: string)
    requires SaveKey(w, release) == Some(key)
    requires forall id <- s.releases :: id != release.id ==> Releases(w)(id, s.releases[id]) == Keep(id, s.releases[id])
    ensures Acceptable(Saved(s, release, key).releases, Releases(w), Always) <==>
            Dated(w, release) && (Trimmed(release.id) || Trim(release.id) !in s.releases)
  {
    hide Filed, NormalRelease, Trim;
    var m, f, id := Saved(s, release, key).releases, Releases(w), release.id;
    FiledNormal(w, release, key);
    assert f(id, m[id]) == NormalRelease(w, id, Filed(release, key));
    forall k <- s.releases | k != id ensures f(k, m[k]) == Keep(k, m[k]) { }
    if Dated(w, release) && Trim(id) != id && Trim(id) in s.releases { assert Meet(m, f, id, Trim(id)); }
  }

  lemma SavedReferencesOk(w: World, s: State, release: Release, key: string, releases: map<string, Release>)
    requires Normal(w, s) && SaveKey(w, release) == Some(key) && SavedReleases(s, release, key, releases)
    requires Trimmed(release.id) || Trim(release.id) !in s.releases
    ensures ReferencesOk(w, Saved(s, release, key), releases) <==>
            Reread(w, key) == Some(key) && OnlyHere(s, release.id, key)
  {
    hide Filed, Trim, Reread, Normal, Acceptable, SavedReleases;
    SavedCurrentsOk(w, s, release, key, releases);
    SavedDeploymentsOk(w, s, release, key, releases);
  }

  lemma SavedCurrentsOk(w: World, s: State, release: Release, key: string, releases: map<string, Release>)
    requires Normal(w, s) && SaveKey(w, release) == Some(key) && SavedReleases(s, release, key, releases)
    requires Trimmed(release.id) || Trim(release.id) !in s.releases
    ensures Acceptable(s.current[key := release.id], Currents(w, releases), Differ) <==>
            Reread(w, key) == Some(key) && forall k <- s.current :: s.current[k] == release.id ==> k == key
  {
    hide Trim, Reread, Part, ScopeKey, NormalScope, NormalCurrent, NormalDeployment, NormalNode, NormalRelease,
         NormalSecret, NormalAttachment, NormalSnapshot, NormalIngressCheck;
    var m, f := s.current[key := release.id], Currents(w, releases);
    SavedCurrent(w, release, key, releases);
    assert f(key, m[key]) == if Reread(w, key) == Some(key) then Keep(key, Trim(release.id)) else Refuse;
    forall k <- s.current | k != key
      ensures f(k, m[k]) == if s.current[k] == release.id then Refuse else Keep(k, s.current[k])
    {
      assert Currents(w, s.releases)(k, s.current[k]) == Keep(k, s.current[k]);
      OtherCurrent(w, s, release, key, releases, k);
    }
    if Acceptable(m, f, Differ) {
      forall k <- s.current | s.current[k] == release.id ensures k == key {
        assert !f(k, m[k]).Refuse?;
      }
    }
  }

  lemma SavedDeploymentsOk(w: World, s: State, release: Release, key: string, releases: map<string, Release>)
    requires Normal(w, s) && SavedReleases(s, release, key, releases)
    requires Trimmed(release.id) || Trim(release.id) !in s.releases
    ensures Acceptable(s.deployments, Deployments(releases), Always) <==>
            forall d <- s.deployments :: s.deployments[d].releaseID == release.id ==>
              s.deployments[d].environmentID == key
  {
    hide Trim, ScopeKey, NormalScope, NormalCurrent, NormalDeployment, NormalNode, NormalRelease,
         NormalSecret, NormalAttachment, NormalSnapshot, NormalIngressCheck;
    var m, f := s.deployments, Deployments(releases);
    forall d <- m
      ensures f(d, m[d]) ==
              if m[d].releaseID == release.id && m[d].environmentID != key then Refuse else Keep(d, m[d])
    {
      assert Deployments(s.releases)(d, m[d]) == Keep(d, m[d]);
      OtherDeployment(s, release, key, releases, d);
    }
    if Acceptable(m, f, Always) {
      forall d <- m | m[d].releaseID == release.id ensures m[d].environmentID == key {
        assert !f(d, m[d]).Refuse?;
      }
    }
  }

  lemma SavedCurrent(w: World, release: Release, key: string, releases: map<string, Release>)
    requires SaveKey(w, release) == Some(key)
    requires Trim(release.id) in releases && releases[Trim(release.id)].environmentID == key
    ensures NormalCurrent(w, releases, key, release.id) ==
            if Reread(w, key) == Some(key) then Keep(key, Trim(release.id)) else Refuse
  {
    hide Trim, Reread, Part, ScopeKey, NormalScope;
    SavedKey(w, release, key);
    RereadIs(w, key);
  }

  lemma OtherCurrent(w: World, s: State, release: Release, key: string, releases: map<string, Release>, k: string)
    requires SavedReleases(s, release, key, releases) && k in s.current && k != key
    requires Trimmed(release.id) || Trim(release.id) !in s.releases
    requires NormalCurrent(w, s.releases, k, s.current[k]) == Keep(k, s.current[k])
    ensures NormalCurrent(w, releases, k, s.current[k]) ==
            if s.current[k] == release.id then Refuse else Keep(k, s.current[k])
  {
    hide Trim, Part, ScopeKey, NormalScope;
  }

  lemma OtherDeployment(s: State, release: Release, key: string, releases: map<string, Release>, d: string)
    requires SavedReleases(s, release, key, releases) && d in s.deployments
    requires Trimmed(release.id) || Trim(release.id) !in s.releases
    requires NormalDeployment(s.releases, d, s.deployments[d]) == Keep(d, s.deployments[d])
    ensures NormalDeployment(releases, d, s.deployments[d]) ==
            if s.deployments[d].releaseID == release.id && s.deployments[d].environmentID != key then Refuse
            else Keep(d, s.deployments[d])
  {
    hide Trim, FirstNonEmpty;
  }

  /** After a release was saved the state can be written again exactly when the release
      is writable.  Saving over another environment's release, whether it is current
      there or was deployed there, leaves references that the next write refuses. */
  lemma SavedCanBeWritten(w: World, s: State, release: Release, key: string)
    requires Normal(w, s) && SaveKey(w, release) == Some(key)
    ensures (exists t :: Normalizes(w, Saved(s, release, key), t)) <==> Writable(w, s, release, key)
  {
    hide Normalizes, FoldsTo, RecordsOk, ReferencesOk, Saved, OnlyHere, Reread, Trim, Normal, SavedReleases, Dated;
    var t := Saved(s, release, key);
    AcceptedExactly(w, t);
    SavedRecords(w, s, release, key);
    forall releases | FoldsTo(t.releases, Releases(w), Reject, Some(releases))
      ensures Dated(w, release) && SavedReleases(s, release, key, releases)
    {
      SavedFolds(w, s, release, key, releases);
    }
    if RecordsOk(w, t) {
      var releases := AcceptedReleases(w, t);
      SavedReferencesOk(w, s, release, key, releases);
      forall other | FoldsTo(t.releases, Releases(w), Reject, Some(other)) ensures other == releases {
        FoldsToOne(t.releases, Releases(w), Reject, Some(other), Some(releases));
      }
    }
  }

  /** Saving over a release that another environment has as its current one, or
      deployed, is found out by the next write. */
  lemma SaveOverRefused(w: World, s: State, release: Release, key: string, t: State)
    requires Normal(w, s) && SaveKey(w, release) == Some(key)
    requires (exists k <- s.current :: s.current[k] == release.id && k != key) ||
             exists d <- s.deployments :: s.deployments[d].releaseID == release.id &&
               s.deployments[d].environmentID != key
    ensures !Normalizes(w, Saved(s, release, key), t)
  {
    hide Normalizes, Saved, Reread, Trim, Normal, Dated, SaveKey;
    SavedCanBeWritten(w, s, release, key);
  }

  lemma AcceptedReleases(w: World, s: State) returns (releases: map<string, Release>)
    requires RecordsOk(w, s)
    ensures FoldsTo(s.releases, Releases(w), Reject, Some(releases))
  {
    hide FoldsTo, Agreeing, Acceptable, NoneRefused;
    RejectAgrees<Release>();
    FoldsToSome(s.releases, Releases(w), Reject, Always);
    releases :| FoldsTo(s.releases, Releases(w), Reject, Some(releases));
  }

  // ---- the history of an environment ----

  /** Newer first; of releases made at the same instant, the greater identifier
      first. */
  predicate Later(w: World, a: Release, b: Release) {
    var s, t := w.instant(Trim(a.createdAt)), w.instant(Trim(b.createdAt));
    s.Some? && t.Some? && (if s.value != t.value then s.value > t.value else Less(b.id, a.id))
  }

  /** When the release was made, if that can be read. */
  ghost function When(w: World, r: Release): Option<int> {
    w.instant(Trim(r.createdAt))
  }

  /** Releases are filed under their own identifiers. */
  predicate Indexed(releases: map<string, Release>) {
    forall id <- releases :: releases[id].id == id
  }

  ghost predicate StrictlyLater(w: World, list: seq<Release>) {
    forall i, j :: 0 <= i < j < |list| ==> Later(w, list[i], list[j])
  }

  function TimeOf(times: map<string, int>, r: Release): int {
    if r.id in times then times[r.id] else 0
  }

  /** The comparison of the code, over the times it looked up first, by
      identifier. */
  predicate Before(times: map<string, int>, a: Release, b: Release) {
    if TimeOf(times, a) != TimeOf(times, b) then TimeOf(times, a) > TimeOf(times, b) else Less(b.id, a.id)
  }

  lemma BeforeIsStrictWeakOrder(times: map<string, int>)
    ensures StrictWeakOrder((a, b) => Before(times, a, b))
  {
    hide TimeOf, Less;
    var before := (a: Release, b: Release) => Before(times, a, b);
    forall x ensures !before(x, x) { LessIrreflexive(x.id); }
    forall x, y, z | before(x, y) && before(y, z) ensures before(x, z) {
      if Less(y.id, x.id) && Less(z.id, y.id) { LessTransitive(z.id, y.id, x.id); }
    }
    forall x, y, z | before(x, z) ensures before(x, y) || before(y, z) {
      LessTotal(x.id, y.id);
      LessTotal(y.id, z.id);
      if Less(x.id, y.id) && Less(z.id, x.id) { LessTransitive(z.id, x.id, y.id); }
      if Less(y.id, z.id) && Less(z.id, x.id) { LessTransitive(y.id, z.id, x.id); }
    }
  }

  /** The identifiers under which the releases of `key` are filed, among those not
      `left`. */
  function FiledFor(all: map<string, Release>, left: set<string>, key: string): set<string> {
    set id <- all | id !in left && all[id].environmentID == key
  }

  /** `ReleaseHistory`: all releases of the environment and no others.  If releases
      are filed under their own identifiers, they come strictly newest first, so the
      order of the map does not show. */
  method ReleaseHistory(solo: Solo, root: string, environment: string) returns (r: Option<seq<Release>>)
    ensures
      var key := EnvironmentStateKey(solo.world, root, environment);
      r.Some? <==> key.Some? && forall id <- solo.state.releases ::
                     solo.state.releases[id].environmentID == key.value ==> Dated(solo.world, solo.state.releases[id])
    ensures r.Some? ==>
      var ids := FiledFor(solo.state.releases, {}, EnvironmentStateKey(solo.world, root, environment).value);
      && |r.value| == |ids|
      && (forall x :: x in r.value <==> exists id <- ids :: solo.state.releases[id] == x)
      && (Indexed(solo.state.releases) ==> StrictlyLater(solo.world, r.value))
    // newest first, and of two made at one instant the greater identifier first
    ensures r.Some? && Indexed(solo.state.releases) ==>
      forall i, j, s, t ::
        0 <= i < j < |r.value| && When(solo.world, r.value[i]) == Some(s) && When(solo.world, r.value[j]) == Some(t) ==>
        s > t || (s == t && Less(r.value[j].id, r.value[i].id))
  {
    hide EnvironmentStateKey, Later, Before, StableSort, StrictWeakOrder, Dated, Indexed;
    var key := EnvironmentStateKey(solo.world, root, environment);
    if key.None? { return None; }
    var all := solo.state.releases;
    var releases: seq<Release> := [];
    var left := all.Keys;
    while left != {}
      invariant left <= all.Keys && Gathered(all, left, key.value, releases)
      decreases left
    {
      var id :| id in left;
      assert left - {id} + {id} == left;
      left := left - {id};
      GatheredStep(all, left, key.value, releases, id);
      if all[id].environmentID == key.value { releases := releases + [all[id]]; }
    }
    var times: map<string, int> := map[];
    for i := 0 to |releases|
      invariant forall j :: 0 <= j < i ==> Dated(solo.world, releases[j])
      invariant Timed(solo.world, releases, i, times)
    {
      if !Dated(solo.world, releases[i]) {
        GatheredHas(all, key.value, releases, i);
        return None;
      }
      TimedStep(solo.world, releases, i, times);
      times := times[releases[i].id := Moment(solo.world, releases[i])];
    }
    var before := (a: Release, b: Release) => Before(times, a, b);
    HistoryIsSorted(solo.world, all, key.value, releases, times);
    r := Some(StableSort(releases, before));
    if Indexed(all) { NewestFirst(solo.world, r.value); }
  }

  lemma NewestFirst(w: World, list: seq<Release>)
    requires StrictlyLater(w, list)
    ensures
      forall i, j, s, t :: 0 <= i < j < |list| && When(w, list[i]) == Some(s) && When(w, list[j]) == Some(t) ==>
        s > t || (s == t && Less(list[j].id, list[i].id))
  {
    hide Trim;
    forall i, j | 0 <= i < j < |list| ensures Later(w, list[i], list[j]) {
    }
  }

  function Moment(w: World, r: Release): int
    requires Dated(w, r)
  {
    w.instant(Trim(r.createdAt)).value
  }

  /** If no two of the first `n` releases share an identifier, each has its own time. */
  ghost predicate Timed(w: World, list: seq<Release>, n: nat, times: map<string, int>)
    requires n <= |list| && forall j :: 0 <= j < n ==> Dated(w, list[j])
  {
    forall i :: 0 <= i < n && (forall j :: i < j < n ==> list[j].id != list[i].id) ==>
      list[i].id in times && times[list[i].id] == Moment(w, list[i])
  }

  lemma TimedStep(w: World, list: seq<Release>, n: nat, times: map<string, int>)
    requires n < |list| && (forall j :: 0 <= j <= n ==> Dated(w, list[j])) && Timed(w, list, n, times)
    ensures Timed(w, list, n + 1, times[list[n].id := Moment(w, list[n])])
  {
    hide Dated, Moment;
  }

  /** `list` has, in some order, the releases of `key` that are not `left` to look
      at, as often as they are filed. */
  ghost predicate Gathered(all: map<string, Release>, left: set<string>, key: string, list: seq<Release>) {
    && |list| == |FiledFor(all, left, key)|
    && (forall x :: x in list <==> exists id <- FiledFor(all, left, key) :: all[id] == x)
    && (Indexed(all) ==> forall i, j :: 0 <= i < j < |list| ==> list[i].id != list[j].id)
  }

  lemma GatheredStep(all: map<string, Release>, left: set<string>, key: string, list: seq<Release>, id: string)
    requires id in all && id !in left && Gathered(all, left + {id}, key, list)
    ensures Gathered(all, left, key, if all[id].environmentID == key then list + [all[id]] else list)
  {
    var was, now := FiledFor(all, left + {id}, key), FiledFor(all, left, key);
    if all[id].environmentID != key {
      assert now == was;
    } else {
      assert now == was + {id};
      var more := list + [all[id]];
      forall x ensures x in more <==> exists k <- now :: all[k] == x {
        if x in list { var k :| k in was && all[k] == x; assert k in now; }
        if x == all[id] { assert id in now; }
      }
      if Indexed(all) {
        forall i | 0 <= i < |list| ensures list[i].id != id { assert list[i] in list; }
      }
    }
  }

  lemma GatheredHas(all: map<string, Release>, key: string, list: seq<Release>, i: nat)
    requires Gathered(all, {}, key, list) && i < |list|
    ensures exists id <- all :: all[id] == list[i] && all[id].environmentID == key
  {
    assert list[i] in list;
  }

  lemma HistoryIsSorted(w: World, all: map<string, Release>, key: string, list: seq<Release>, times: map<string, int>)
    requires Gathered(all, {}, key, list) && (forall i :: 0 <= i < |list| ==> Dated(w, list[i])) &&
      Timed(w, list, |list|, times)
    ensures
      var sorted := StableSort(list, (a, b) => Before(times, a, b));
      && |sorted| == |list| && (forall x :: x in sorted <==> x in list)
      && (Indexed(all) ==> StrictlyLater(w, sorted))
    ensures forall id <- all :: all[id].environmentID == key ==> all[id] in list && Dated(w, all[id])
  {
    hide StableSort, StrictWeakOrder, Less, Trim, Dated, Moment, Indexed, Later;
    var before := (a: Release, b: Release) => Before(times, a, b);
    var sorted := StableSort(list, before);
    BeforeIsStrictWeakOrder(times);
    SortSorts(list, before);
    SortContents(list, before);
    SameMembers(sorted, list);
    forall id <- all | all[id].environmentID == key ensures all[id] in list && Dated(w, all[id]) {
      assert id in FiledFor(all, {}, key);
    }
    if Indexed(all) {
      DistinctPermuted(list, sorted);
      forall r <- list ensures Dated(w, r) && r.id in times && times[r.id] == Moment(w, r) {
        var i :| 0 <= i < |list| && list[i] == r;
      }
      forall i, j | 0 <= i < j < |sorted| ensures Later(w, sorted[i], sorted[j]) {
        assert sorted[i] in list && sorted[j] in list;
        DistinctIds(list, sorted, i, j);
        assert !before(sorted[j], sorted[i]);
        LaterIs(w, times, sorted[i], sorted[j]);
      }
    }
  }

  lemma DistinctIds(list: seq<Release>, sorted: seq<Release>, i: nat, j: nat)
    requires forall p, q :: 0 <= p < q < |list| ==> list[p].id != list[q].id
    requires i < j < |sorted| && Sorting.Distinct(sorted) && sorted[i] in list && sorted[j] in list
    ensures sorted[i].id != sorted[j].id
  {
    var p :| 0 <= p < |list| && list[p] == sorted[i];
    var q :| 0 <= q < |list| && list[q] == sorted[j];
  }

  lemma LaterIs(w: World, times: map<string, int>, a: Release, b: Release)
    requires Dated(w, a) && Dated(w, b) && a.id in times && b.id in times
    requires times[a.id] == Moment(w, a) && times[b.id] == Moment(w, b)
    requires a.id != b.id && !Before(times, b, a)
    ensures Later(w, a, b)
  {
    hide Trim, Less;
    LessTotal(a.id, b.id);
  }
}
