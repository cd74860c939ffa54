/** What normalisation asks of each kind of record and what it makes of it, on the
    record's own fields. */
module SoloRecords {
  import opened Text
  import opened Sorting
  import opened StringLists
  import opened RecordMaps
  import opened SoloStates

  /** The record's own value, or failing that what its key says. */
  predicate Either(value: string, fallback: string, r: string) {
    r == if Trim(value) != "" then Trim(value) else Trim(fallback)
  }

  lemma FirstIsEither(value: string, fallback: string)
    ensures Either(value, fallback, FirstNonEmpty([value, fallback]))
  {
    hide Trim;
    FirstOfTwo(value, fallback);
  }

  /** A list as the records keep it: sorted, trimmed, without blanks, and with exactly
      the values of `from`. */
  ghost predicate Tidied(from: seq<string>, r: seq<string>) {
    && StrictlySorted(r)
    && forall x :: x in r <==> x != "" && exists v <- from :: Trim(v) == x
  }

  lemma MergedIsTidied(values: seq<string>)
    ensures Tidied(values, MergeOf([], values))
  {
    hide Trim, MergeOf, StrictlySorted;
    MergeSpec([], values);
    forall x ensures !Occurs([], x) { NothingOccurs(x); }
  }

  // ---- workspace and environment ----

  /** Where a record is filed: `path` is how the file system spells the first of its
      root, its key and the key it was found under that is not blank. */
  ghost predicate Located(w: World, found: string, foundEnvironment: string, s: Scope, r: Scope) {
    && (exists source :: source != "" && w.canon(source) == Some(r.key) &&
          source == if Trim(s.root) != "" then Trim(s.root) else if Trim(s.key) != "" then Trim(s.key) else found)
    && r.root == (if Trim(s.root) != "" then Trim(s.root) else r.key)
    && r.environment == (if Trim(s.environment) != "" then Trim(s.environment)
                         else if Trim(foundEnvironment) != "" then Trim(foundEnvironment) else "production")
  }

  lemma ScopeIsLocated(w: World, key: string, keyEnvironment: string, s: Scope)
    ensures forall r :: NormalScope(w, key, keyEnvironment, s) == Some(r) <==>
                        Located(w, Part(key, 2, 0), keyEnvironment, s, r)
  {
    hide Trim, Part, FirstNonEmpty;
    ScopeOfThree(s.root, s.key, Part(key, 2, 0));
    FirstOfTwo(s.environment, keyEnvironment);
    PartIsTrimmed(key, 2, 0);
    TrimTrims(s.root);
    TrimTrims(s.key);
    TrimTrims(s.environment);
    TrimTrims(keyEnvironment);
    EmptyIsBlank();
  }

  // ---- the records ----

  /** A node needs a name, a host, a user and a port; no port is port 22, and no labels
      are the label `web`. */
  lemma NodeRecord(name: string, n: Node)
    ensures
      var o := NormalNode(name, n);
      && !o.Skip?
      && (o.Keep? <==> Trim(name) != "" && Trim(n.host) != "" && Trim(n.user) != "" && 0 <= n.port <= 65535)
      && (o.Keep? ==>
            && o.key == name && o.value.host == n.host && o.value.user == n.user && o.value.provider == n.provider
            && o.value.port == (if n.port == 0 then 22 else n.port)
            && o.value.agentStateDir == (if Trim(n.agentStateDir) != "" then n.agentStateDir
                                         else "/var/lib/devopsellence")
            && o.value.labels != [] && Sorting.Distinct(o.value.labels)
            && forall x :: x in o.value.labels <==>
                 (x != "" && exists v <- n.labels :: Trim(v) == x) ||
                 (x == "web" && forall v <- n.labels :: Trim(v) == ""))
  {
    hide Trim, Uniq;
    UniqSpec(n.labels, |n.labels|);
    assert n.labels[..|n.labels|] == n.labels;
    var u := Uniq(n.labels, |n.labels|);
    HasMember(u);
    if v :| v in n.labels && Trim(v) != "" { assert Occurs(n.labels, Trim(v)); }
  }

  /** An attachment is filed under its workspace and environment, with its node names
      tidied. */
  lemma AttachmentRecord(w: World, key: string, a: Attachment)
    ensures
      var o := NormalAttachment(w, key, a);
      && !o.Skip?
      && (o.Refuse? <==> forall r :: !Located(w, Part(key, 2, 0), Part(key, 2, 1), a.scope, r))
      && (o.Keep? ==>
            && Located(w, Part(key, 2, 0), Part(key, 2, 1), a.scope, o.value.scope)
            && o.key == o.value.scope.key + "\n" + o.value.scope.environment
            && Tidied(a.nodeNames, o.value.nodeNames))
  {
    hide Trim, Part, NormalScope, Located, MergeOf, Tidied;
    ScopeIsLocated(w, key, Part(key, 2, 1), a.scope);
    MergedIsTidied(a.nodeNames);
  }

  /** A snapshot and an ingress check likewise. */
  lemma SnapshotRecord(w: World, key: string, s: Snapshot)
    ensures
      var o := NormalSnapshot(w, key, s);
      && !o.Skip?
      && (o.Refuse? <==> forall r :: !Located(w, Part(key, 2, 0), Part(key, 2, 1), s.scope, r))
      && (o.Keep? ==>
            && Located(w, Part(key, 2, 0), Part(key, 2, 1), s.scope, o.value.scope)
            && o.key == o.value.scope.key + "\n" + o.value.scope.environment
            && o.value.revision == s.revision && o.value.contents == s.contents)
  {
    hide Trim, Part, NormalScope, Located;
    ScopeIsLocated(w, key, Part(key, 2, 1), s.scope);
  }

  lemma IngressCheckRecord(w: World, key: string, c: IngressCheck)
    ensures
      var o := NormalIngressCheck(w, key, c);
      && !o.Skip?
      && (o.Refuse? <==> forall r :: !Located(w, Part(key, 2, 0), Part(key, 2, 1), c.scope, r))
      && (o.Keep? ==>
            && Located(w, Part(key, 2, 0), Part(key, 2, 1), c.scope, o.value.scope)
            && o.key == o.value.scope.key + "\n" + o.value.scope.environment
            && Tidied(c.publicURLs, o.value.publicURLs) && Tidied(c.expectedIPs, o.value.expectedIPs)
            && o.value.ok == c.ok && o.value.checkedAt == Trim(c.checkedAt) && o.value.contents == c.contents)
  {
    hide Trim, Part, NormalScope, Located, MergeOf, Tidied;
    ScopeIsLocated(w, key, Part(key, 2, 1), c.scope);
    MergedIsTidied(c.publicURLs);
    MergedIsTidied(c.expectedIPs);
  }

  /** A release needs an identifier, an environment, a revision, a readable time and a
      place; its environment is then that of its snapshot. */
  lemma ReleaseRecord(w: World, id: string, r: Release)
    ensures
      var o, found := NormalRelease(w, id, r), Trim(r.environmentID);
      && !o.Skip?
      && (o.Keep? <==>
            && (Trim(r.id) != "" || Trim(id) != "") && found != "" && Trim(r.revision) != ""
            && w.instant(Trim(r.createdAt)).Some?
            && exists scope :: Located(w, Part(found, 2, 0), Part(found, 2, 1), r.snapshot.scope, scope))
      && (o.Keep? ==>
            && Either(r.id, id, o.key) && o.value.id == o.key
            && Located(w, Part(found, 2, 0), Part(found, 2, 1), r.snapshot.scope, o.value.snapshot.scope)
            && o.value.environmentID == o.value.snapshot.scope.key + "\n" + o.value.snapshot.scope.environment
            && o.value.revision == o.value.snapshot.revision == Trim(r.revision)
            && o.value.createdAt == Trim(r.createdAt) && o.value.contents == r.contents
            && o.value.snapshot.contents == r.snapshot.contents)
  {
    hide Trim, Part, NormalScope, Located, FirstNonEmpty;
    var found := Trim(r.environmentID);
    ScopeIsLocated(w, found, Part(found, 2, 1), r.snapshot.scope);
    FirstIsEither(r.id, id);
  }

  /** A current entry belongs where its key says.  A blank one is dropped; any other
      must name a release of that environment. */
  lemma CurrentRecord(w: World, releases: map<string, Release>, key: string, value: string)
    ensures
      var o := NormalCurrent(w, releases, key, value);
      match Reread(w, key)
      case None => o.Refuse?
      case Some(home) =>
        && (o.Skip? <==> Trim(value) == "")
        && (o.Keep? <==> Trim(value) != "" && Trim(value) in releases && releases[Trim(value)].environmentID == home)
        && (o.Keep? ==> o.key == home && o.value == Trim(value))
  {
    hide Trim, Part, NormalScope, Reread;
    RereadIs(w, key);
  }

  /** A deployment needs an identifier, a release of its own environment, one of three
      kinds, one of four statuses and a positive number. */
  lemma DeploymentRecord(releases: map<string, Release>, id: string, d: Deployment)
    ensures
      var o := NormalDeployment(releases, id, d);
      && !o.Skip?
      && (o.Keep? <==>
            && (Trim(d.id) != "" || Trim(id) != "") && Trim(d.environmentID) != "" && Trim(d.releaseID) != ""
            && Trim(d.releaseID) in releases
            && releases[Trim(d.releaseID)].environmentID == Trim(d.environmentID)
            && (Trim(d.kind) == "deploy" || Trim(d.kind) == "rollback" || Trim(d.kind) == "republish")
            && (Trim(d.status) == "pending" || Trim(d.status) == "running" || Trim(d.status) == "settled" ||
                Trim(d.status) == "failed")
            && d.sequence > 0)
      && (o.Keep? ==>
            && Either(d.id, id, o.key) && o.value.id == o.key
            && o.value.environmentID == Trim(d.environmentID) && o.value.releaseID == Trim(d.releaseID)
            && o.value.kind == Trim(d.kind) && o.value.status == Trim(d.status)
            && o.value.sequence == d.sequence && o.value.contents == d.contents)
  {
    hide Trim, FirstNonEmpty;
    FirstIsEither(d.id, id);
  }

  /** A secret needs a place, a service, a name and a store: plain text with a value, or
      1password, under one of its three names, with a reference and no value. */
  lemma SecretRecord(w: World, key: string, s: Secret)
    ensures
      var o, word := NormalSecret(w, key, s), Trim(w.lower(s.store));
      && !o.Skip?
      && (o.Keep? <==>
            && (exists r :: Located(w, Part(key, 2, 0), Part(key, 4, 1), s.scope, r))
            && (Trim(s.service) != "" || Trim(Part(key, 4, 2)) != "") &&
            (Trim(s.name) != "" || Trim(Part(key, 4, 3)) != "")
            && ((word in ["", "plaintext"] && Trim(s.value) != "") ||
                (word in ["1password", "onepassword", "op"] && Trim(s.value) == "" && Trim(s.reference) != "" &&
                 "op://" <= w.lower(Trim(s.reference)))))
      && (o.Keep? ==>
            && Located(w, Part(key, 2, 0), Part(key, 4, 1), s.scope, o.value.scope)
            && Either(s.service, Part(key, 4, 2), o.value.service) && Either(s.name, Part(key, 4, 3), o.value.name)
            && o.value.store == (if word in ["", "plaintext"] then "plaintext" else "1password")
            && o.value.value == s.value && o.value.reference == Trim(s.reference) && o.value.updatedAt == s.updatedAt)
  {
    hide Trim, Part, NormalScope, Located, FirstNonEmpty, SecretKey;
    ScopeIsLocated(w, key, Part(key, 4, 1), s.scope);
    FirstIsEither(s.service, Part(key, 4, 2));
    FirstIsEither(s.name, Part(key, 4, 3));
    StoreWords();
  }

  lemma StoreWords()
    ensures PLAINTEXT != ONE_PASSWORD && PLAINTEXT != "op" && PLAINTEXT != "onepassword" && PLAINTEXT != ""
  {
    assert PLAINTEXT[0] == 'p' && ONE_PASSWORD[0] == '1' && "onepassword"[0] == 'o' && "op"[0] == 'o';
  }

  /** The key under which a secret is filed. */
  lemma SecretIsFiled(w: World, key: string, s: Secret)
    requires NormalSecret(w, key, s).Keep? && WorldOk(w)
    ensures
      var o := NormalSecret(w, key, s);
      o.key == Trim(o.value.scope.key) + "\n" + o.value.scope.environment + "\n" + o.value.service + "\n" + o.value.name
  {
    hide Trim, Part, NormalScope, FirstNonEmpty, NormalStore, MaterialOk, WorldOk;
    var scope := NormalScope(w, key, Part(key, 4, 1), s.scope).value;
    NormalScopeMade(w, key, Part(key, 4, 1), s.scope);
    FirstIsTrimmed([s.service, Part(key, 4, 2)]);
    FirstIsTrimmed([s.name, Part(key, 4, 3)]);
  }
}
